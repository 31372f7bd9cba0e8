/**
 Handing notifications to the browsers' push services. A delivery is claimed before it is
 pushed, alone or in a group; what became of the push is recorded after; receipts from the
 browsers and restarts may come at any time between.
 */
module PushDelivery {
  import opened Wrappers

  // One notification on one device.
  datatype Pair = Pair(id: string, device: string)

  datatype State = Pending | Sending | Unknown | Accepted | Expired | Failed | Canceled

  // `seen` is set once the browser has told that it was shown or clicked.
  datatype Row = Row(state: State, attempts: nat, seen: bool)

  type Table = map<Pair, Row>

  // The push service answers with a status, or the push raises.
  datatype Result = Status(code: int) | Raised

  const MAX_RETRIES := 4

  // Only a refusal that says to come back makes a delivery pending again; an answer that is
  // no HTTP status counts as no answer.
  function Outcome(result: Result, attempts: nat): State {
    match result
    case Raised => Unknown
    case Status(code) =>
      if !(200 <= code <= 599) then Unknown
      else if code < 300 then Accepted
      else if code == 404 || code == 410 then Expired
      else if (code == 429 || code >= 500) && attempts < MAX_RETRIES then Pending
      else Failed
  }

  // A call of the push service; without a result the process died in it.
  datatype Push = Push(members: set<Pair>, attempts: nat, result: Option<Result>)

  // The service refused for now, in so many words.
  predicate ToldToRetry(p: Push) {
    p.result.Some? && Outcome(p.result.value, p.attempts).Pending?
  }

  lemma RetryMeansRefusal(p: Push)
    ensures ToldToRetry(p) <==>
      p.result.Some? && p.result.value.Status? && p.attempts < 4
      && (p.result.value.code == 429 || 500 <= p.result.value.code <= 599)
  {}

  // What an answer makes of a delivery: any 2xx accepts it, 404 and 410 mean that the
  // subscription is gone, other statuses fail it for good unless it may be tried again, and
  // what is no status, or no answer, leaves it open.
  lemma OutcomeIs(result: Result, attempts: nat)
    ensures Outcome(result, attempts) == Accepted <==> result.Status? && 200 <= result.code <= 299
    ensures Outcome(result, attempts) == Expired <==> result == Status(404) || result == Status(410)
    ensures Outcome(result, attempts) == Unknown <==> result.Raised? || result.code < 200 || result.code > 599
    ensures Outcome(result, attempts) == Pending <==>
              result.Status? && (result.code == 429 || 500 <= result.code <= 599) && attempts <= 3
    ensures Outcome(result, attempts) == Failed <==>
              && result.Status? && 300 <= result.code <= 599 && result.code != 404 && result.code != 410
              && ((result.code < 500 && result.code != 429) || attempts >= 4)
  {}

  // ------------------------------------------------------------------ the invariant

  // A pair is pushed again only after pushes that were all told to retry.
  ghost predicate PushedOnce(pushes: seq<Push>) {
    forall i, j, p | 0 <= i < j < |pushes| && p in pushes[i].members && p in pushes[j].members :: ToldToRetry(pushes[i])
  }

  ghost predicate WaitsOnlyIfTold(table: Table, pushes: seq<Push>) {
    forall i, p | 0 <= i < |pushes| && p in pushes[i].members && p in table && table[p].state.Pending? ::
      ToldToRetry(pushes[i])
  }

  ghost predicate Inv(table: Table, history: set<string>, pushes: seq<Push>) {
    && PushedOnce(pushes) && WaitsOnlyIfTold(table, pushes)
    && (forall p | p in table :: p.id in history)
    && (forall i, p | 0 <= i < |pushes| && p in pushes[i].members :: p in table)
  }

  function ClaimAll(table: Table, members: set<Pair>): Table {
    map p | p in table :: if p in members then table[p].(state := Sending, attempts := table[p].attempts + 1) else table[p]
  }

  // What is recorded of rows in the states given; a row the browser has seen is accepted.
  function RecordAll(table: Table, members: set<Pair>, to: State, unsent: bool): Table {
    map p | p in table ::
      if p in members && (table[p].state.Sending? || table[p].state.Accepted? || (unsent && table[p].state.Pending?)) then
        table[p].(state := if table[p].seen then Accepted else to)
      else table[p]
  }

  predicate Receivable(state: State) {
    state.Pending? || state.Sending? || state.Unknown? || state.Accepted?
  }

  function AcceptAll(table: Table, members: set<Pair>): Table {
    map p | p in table ::
      if p in members && Receivable(table[p].state) then table[p].(state := Accepted, seen := true) else table[p]
  }

  function CancelAll(table: Table, members: set<Pair>): Table {
    map p | p in table :: if p in members && table[p].state.Pending? then table[p].(state := Canceled) else table[p]
  }

  function Restarted(table: Table): Table {
    map p | p in table :: if table[p].state.Sending? then table[p].(state := Unknown) else table[p]
  }

  // Rows that become pending nowhere else keep the invariant.
  lemma NoNewPending(table: Table, table': Table, history: set<string>, pushes: seq<Push>)
    requires Inv(table, history, pushes) && table'.Keys == table.Keys
    requires forall p | p in table && table'[p].state.Pending? :: table[p].state.Pending?
    ensures Inv(table', history, pushes)
  {}

  // Claimed rows were pending, so all their pushes so far were told to retry.
  lemma ClaimThenPush(table: Table, history: set<string>, pushes: seq<Push>, members: set<Pair>, attempts: nat,
                      result: Option<Result>)
    requires Inv(table, history, pushes) && forall p | p in members :: p in table && table[p].state.Pending?
    ensures Inv(ClaimAll(table, members), history, pushes + [Push(members, attempts, result)])
  {
    var next := pushes + [Push(members, attempts, result)];
    forall i, j, p | 0 <= i < j < |next| && p in next[i].members && p in next[j].members ensures ToldToRetry(next[i]) {
      assert next[i] == pushes[i];
      if j == |pushes| {
        assert table[p].state.Pending?;
      }
    }
  }

  // Recording the outcome of the last push of these rows keeps the invariant.
  lemma RecordOutcome(table: Table, history: set<string>, pushes: seq<Push>, unsent: bool)
    requires Inv(table, history, pushes) && pushes != [] && pushes[|pushes| - 1].result.Some?
    ensures var last := pushes[|pushes| - 1];
      Inv(RecordAll(table, last.members, Outcome(last.result.value, last.attempts), unsent), history, pushes)
  {
    var last := pushes[|pushes| - 1];
    var next := RecordAll(table, last.members, Outcome(last.result.value, last.attempts), unsent);
    forall i, p | 0 <= i < |pushes| && p in pushes[i].members && p in next && next[p].state.Pending?
      ensures ToldToRetry(pushes[i])
    {
      if p !in last.members {
        assert table[p].state.Pending?;
      }
    }
  }

  // ------------------------------------------------------------------ the fault

  // A group was pushed, its outcome could not be recorded, and the handler of the first job,
  // which takes it for unattempted, makes that job pending.
  lemma HandlerMakesPending(table: Table, history: set<string>, pushes: seq<Push>, first: Pair)
    requires Inv(table, history, pushes) && pushes != [] && first in table
    requires first in pushes[|pushes| - 1].members ==> !table[first].state.Pending?
    requires first !in pushes[|pushes| - 1].members ==>
               table[first].state.Pending? || table[first].state.Canceled? || table[first].seen
    ensures var last := pushes[|pushes| - 1];
      Inv(RecordAll(table, {first}, Pending, true), history, pushes)
      <==> first !in last.members || table[first].seen || !(table[first].state.Sending? || table[first].state.Accepted?)
           || ToldToRetry(last)
  {
    var last, next := pushes[|pushes| - 1], RecordAll(table, {first}, Pending, true);
    if first in last.members && next[first].state.Pending? {
      if ToldToRetry(last) {
        forall i, p | 0 <= i < |pushes| && p in pushes[i].members && p in next && next[p].state.Pending?
          ensures ToldToRetry(pushes[i])
        {
          if p != first {
            assert table[p].state.Pending?;
          }
        }
      }
    } else {
      NoNewPending(table, next, history, pushes);
    }
  }

  // ------------------------------------------------------------------ the dispatcher

  datatype Recording = Recorded | ValueFault | OtherFault

  // What the checks and the push service make of one job: left for later, not allowed any
  // more, too old, an error before anything was claimed, pushed alone, or with a group.
  datatype Course =
    | Leave
    | Refuse
    | Late
    | Trouble(valueError: bool)
    | Alone(result: Option<Result>)
    | Group(selected: seq<Pair>, result: Option<Result>, recording: Recording)

  datatype Ending = Next | Raises | Died

  function SetOf(ps: seq<Pair>): set<Pair> {
    set p | p in ps
  }

  predicate Different(ps: seq<Pair>) {
    forall i, j | 0 <= i < j < |ps| :: ps[i] != ps[j]
  }

  // What receipts and cancellations do to the table while a push is under way.
  function Meanwhile(table: Table, acks: set<Pair>, cancels: set<Pair>): Table {
    CancelAll(AcceptAll(table, acks), cancels)
  }

  // Whom a course hands to the service.
  function Members(table: Table, first: Pair, course: Course): set<Pair> {
    match course
    case Alone(_) => {first}
    case Group(selected, _, _) =>
      if forall p | p in selected :: p in table && table[p].state.Pending? then SetOf(selected) else {}
    case _ => {}
  }

  function PushedWith(course: Course): Option<Result> {
    match course
    case Alone(result) => result
    case Group(_, result, _) => result
    case _ => None
  }

  // A job that is due: its delivery, its course, the number of attempts its push is judged
  // by, what comes meanwhile, and whether its closing record could be made.
  datatype Job = Job(first: Pair, course: Course, attempts: nat, acks: set<Pair>, cancels: set<Pair>, recorded: bool)

  predicate Due(table: Table, job: Job) {
    job.first in table && table[job.first].state.Pending?
  }

  // The rows once a job that was pending has taken its course.
  function AfterJob(table: Table, job: Job): Table {
    var Job(first, course, attempts, acks, cancels, recorded) := job;
    var members := Members(table, first, course);
    var claimed := ClaimAll(table, members);
    match course
    case Leave => table
    case Refuse => CancelAll(table, {first})
    case Late => if recorded then RecordAll(table, {first}, Expired, true) else table
    case Trouble(valueError) =>
      var now := Meanwhile(table, acks, cancels);
      if recorded then RecordAll(now, {first}, if valueError then Canceled else Pending, true) else now
    case Alone(result) =>
      if result.None? then claimed
      else if !recorded then Meanwhile(claimed, acks, cancels)
      else RecordAll(Meanwhile(claimed, acks, cancels), members, Outcome(result.value, attempts), true)
    case Group(_, result, recording) =>
      if members == {} then table
      else if result.None? then claimed
      else
        var now := Meanwhile(claimed, acks, cancels);
        if recording.Recorded? then RecordAll(now, members, Outcome(result.value, attempts), false)
        else if !recorded then now
        else RecordAll(now, {first}, if recording.ValueFault? then Canceled else Pending, true)
  }

  function PushOf(table: Table, job: Job): Push {
    Push(Members(table, job.first, job.course), job.attempts, PushedWith(job.course))
  }

  // Whether the round goes on after the job, or ends with the process or an exception.
  function EndingOf(table: Table, job: Job): Ending {
    match job.course
    case Leave => Next
    case Refuse => Next
    case Late => if job.recorded then Next else Raises
    case Trouble(_) => if job.recorded then Next else Raises
    case Alone(result) => if result.None? then Died else if job.recorded then Next else Raises
    case Group(_, result, recording) =>
      if Members(table, job.first, job.course) == {} then Next
      else if result.None? then Died
      else if recording.Recorded? || job.recorded then Next
      else Raises
  }

  // A round so far.
  datatype Round = Round(table: Table, pushes: seq<Push>, ending: Ending)

  function AfterOne(r: Round, job: Job): Round {
    if !r.ending.Next? || !Due(r.table, job) then r
    else
      Round(AfterJob(r.table, job),
            if Members(r.table, job.first, job.course) == {} then r.pushes else r.pushes + [PushOf(r.table, job)],
            EndingOf(r.table, job))
  }

  function RoundOf(start: Round, jobs: seq<Job>): Round {
    if jobs == [] then start else AfterOne(RoundOf(start, jobs[..|jobs| - 1]), jobs[|jobs| - 1])
  }

  // ------------------------------------------------------------------ what a job comes to

  // Whom a job pushes: its own delivery alone, or all of its group, if every one of it waits.
  lemma MembersAre(table: Table, job: Job, p: Pair)
    ensures p in Members(table, job.first, job.course) <==>
      || (job.course.Alone? && p == job.first)
      || (job.course.Group? && p in job.course.selected
          && forall q | q in job.course.selected :: q in table && table[q].state.Pending?)
  {}

  // A delivery that was pushed has one attempt more. A receipt, even one that comes during the
  // push, accepts it; without one it is what the answer makes of it. If that could not be
  // recorded the row stays claimed, except the first job's, which its handler puts back.
  lemma PushedRow(table: Table, job: Job, p: Pair)
    requires Due(table, job) && p in table && p in Members(table, job.first, job.course)
    ensures p in AfterJob(table, job)
    ensures var row, result := AfterJob(table, job)[p], PushedWith(job.course);
      var inTime := if job.course.Alone? then job.recorded else job.course.recording.Recorded?;
      var handled := !inTime && job.course.Group? && job.recorded && p == job.first;
      && row.attempts == table[p].attempts + 1
      && (row.seen <==> table[p].seen || (result.Some? && p in job.acks))
      && (result.None? ==> row.state == Sending)
      && (result.Some? && (inTime || handled) && row.seen ==> row.state == Accepted)
      && (result.Some? && inTime && !row.seen ==> row.state == Outcome(result.value, job.attempts))
      && (result.Some? && handled && !row.seen ==>
            row.state == if job.course.recording == ValueFault then Canceled else Pending)
      && (result.Some? && !inTime && !handled ==> row.state == if p in job.acks then Accepted else Sending)
  {
    hide Outcome;
  }

  lemma MeanwhileRow(table: Table, acks: set<Pair>, cancels: set<Pair>, p: Pair)
    requires p in table
    ensures p in Meanwhile(table, acks, cancels)
    ensures var row, was := Meanwhile(table, acks, cancels)[p], table[p];
      row == if p in acks && was.state in {Pending, Sending, Unknown, Accepted} then Row(Accepted, was.attempts, true)
             else if p in cancels && was.state == Pending then Row(Canceled, was.attempts, was.seen)
             else was
  {}

  // Of all other deliveries only the job's own is touched, which is called off, too old, or
  // closed by its handler; receipts and cancellations that came meanwhile count for any.
  lemma OtherRow(table: Table, job: Job, p: Pair)
    requires Due(table, job) && p in table && p !in Members(table, job.first, job.course)
    ensures p in AfterJob(table, job)
    ensures var row, was, c := AfterJob(table, job)[p], table[p], job.course;
      var idle := c.Leave? || c.Refuse? || c.Late? || (!c.Trouble? && PushedWith(c).None?)
                  || (c.Group? && Members(table, job.first, c) == {});
      var open := was.state == Pending || was.state == Sending || was.state == Unknown || was.state == Accepted;
      var acked := !idle && p in job.acks && open;
      var called := !idle && p in job.cancels && was.state == Pending && !acked;
      var closed := p == job.first && !called && match c
        case Leave => false
        case Refuse => true
        case Late => job.recorded
        case Trouble(_) => job.recorded
        case Alone(_) => false
        case Group(_, _, recording) => !idle && recording != Recorded && job.recorded;
      && row.attempts == was.attempts && (row.seen <==> was.seen || acked)
      && (called ==> row.state == Canceled)
      && (!called && !closed ==> row.state == if acked then Accepted else was.state)
      && (closed && c.Refuse? ==> row.state == Canceled)
      && (closed && !c.Refuse? && row.seen ==> row.state == Accepted)
      && (closed && !c.Refuse? && !row.seen ==>
            row.state == if c.Late? then Expired
                         else if c == Trouble(true) || (c.Group? && c.recording == ValueFault) then Canceled
                         else Pending)
  {
    MeanwhileRow(table, job.acks, job.cancels, p);
    MeanwhileRow(ClaimAll(table, Members(table, job.first, job.course)), job.acks, job.cancels, p);
    hide Outcome, Meanwhile, AcceptAll;
  }

  // A round ends with the process, in the middle of a push, or with a job whose closing
  // record could not be made, and goes on otherwise.
  lemma EndingIs(table: Table, job: Job)
    ensures var pushed := Members(table, job.first, job.course) != {};
      var died := pushed && PushedWith(job.course).None?;
      var quiet := job.course.Leave? || job.course.Refuse? || (job.course.Group? && !pushed)
                   || (job.course.Group? && job.course.recording.Recorded?);
      && (EndingOf(table, job) == Died <==> died)
      && (EndingOf(table, job) == Raises <==> !died && !quiet && !job.recorded)
  {
    MembersAre(table, job, job.first);
  }

  // ------------------------------------------------------------------ what a job keeps

  // The push of a group came back, not told to retry. Its record was lost for another reason
  // than a value, and the handler could make its own for the first job, which
  // was in the group and had no receipt.
  predicate Faulty(table: Table, job: Job) {
    && Due(table, job) && job.course.Group? && job.course.recording.OtherFault? && job.recorded
    && job.course.result.Some? && job.first in Members(table, job.first, job.course)
    && !table[job.first].seen && job.first !in job.acks
    && !ToldToRetry(PushOf(table, job))
  }

  predicate WellFormed(job: Job) {
    job.course.Group? ==> Different(job.course.selected)
  }

  lemma MeanwhileKeeps(table: Table, history: set<string>, pushes: seq<Push>, acks: set<Pair>, cancels: set<Pair>)
    requires Inv(table, history, pushes)
    ensures Inv(Meanwhile(table, acks, cancels), history, pushes)
  {
    NoNewPending(table, AcceptAll(table, acks), history, pushes);
    NoNewPending(AcceptAll(table, acks), Meanwhile(table, acks, cancels), history, pushes);
  }

  // A job pushed alone keeps the invariant.
  lemma AloneKeeps(table: Table, history: set<string>, pushes: seq<Push>, job: Job)
    requires Inv(table, history, pushes) && Due(table, job) && job.course.Alone?
    ensures Inv(AfterJob(table, job), history, pushes + [PushOf(table, job)])
  {
    var members := {job.first};
    var claimed, next := ClaimAll(table, members), pushes + [PushOf(table, job)];
    ClaimThenPush(table, history, pushes, members, job.attempts, job.course.result);
    MeanwhileKeeps(claimed, history, next, job.acks, job.cancels);
    hide Inv, Outcome;
    if job.course.result.Some? && job.recorded {
      RecordOutcome(Meanwhile(claimed, job.acks, job.cancels), history, next, true);
    }
  }

  // What a claimed row can be while its push is under way.
  lemma ClaimedMeanwhile(table: Table, members: set<Pair>, acks: set<Pair>, cancels: set<Pair>, p: Pair)
    requires p in table
    ensures var now := Meanwhile(ClaimAll(table, members), acks, cancels);
      && p in now
      && (p in members ==> if p in acks then now[p].state.Accepted? && now[p].seen
                           else now[p].state.Sending? && now[p].seen == table[p].seen)
      && (p !in members && table[p].state.Pending? ==>
            now[p].state.Pending? || now[p].state.Canceled? || now[p].seen)
  {}

  lemma GroupExact(table: Table, history: set<string>, pushes: seq<Push>, job: Job)
    requires Inv(table, history, pushes) && Due(table, job) && job.course.Group?
    requires Members(table, job.first, job.course) != {}
    ensures Inv(AfterJob(table, job), history, pushes + [PushOf(table, job)]) <==> !Faulty(table, job)
  {
    var members := Members(table, job.first, job.course);
    var claimed, next := ClaimAll(table, members), pushes + [PushOf(table, job)];
    ClaimThenPush(table, history, pushes, members, job.attempts, job.course.result);
    MeanwhileKeeps(claimed, history, next, job.acks, job.cancels);
    ClaimedMeanwhile(table, members, job.acks, job.cancels, job.first);
    hide Inv, Outcome, Meanwhile, ClaimAll, Members;
    var now := Meanwhile(claimed, job.acks, job.cancels);
    if job.course.result.Some? {
      if job.course.recording.Recorded? {
        RecordOutcome(now, history, next, false);
      } else if job.recorded && job.course.recording.ValueFault? {
        NoNewPending(now, RecordAll(now, {job.first}, Canceled, true), history, next);
      } else if job.recorded {
        HandlerMakesPending(now, history, next, job.first);
      }
    }
  }

  lemma QuietKeeps(table: Table, history: set<string>, pushes: seq<Push>, job: Job)
    requires Inv(table, history, pushes) && Due(table, job) && Members(table, job.first, job.course) == {}
    ensures Inv(AfterJob(table, job), history, pushes) && !Faulty(table, job)
  {
    MeanwhileKeeps(table, history, pushes, job.acks, job.cancels);
    var now := Meanwhile(table, job.acks, job.cancels);
    assert job.first in now;
    match job.course
    case Refuse => NoNewPending(table, AfterJob(table, job), history, pushes);
    case Late => NoNewPending(table, AfterJob(table, job), history, pushes);
    case Trouble(_) => NoNewPending(now, AfterJob(table, job), history, pushes);
    case _ =>
  }

  // One job keeps the invariant if and only if it is not that fault.
  lemma JobExact(r: Round, history: set<string>, job: Job)
    requires Inv(r.table, history, r.pushes)
    ensures Inv(AfterOne(r, job).table, history, AfterOne(r, job).pushes)
            <==> !(r.ending.Next? && Faulty(r.table, job))
  {
    if r.ending.Next? && Due(r.table, job) {
      if Members(r.table, job.first, job.course) == {} {
        QuietKeeps(r.table, history, r.pushes, job);
      } else if job.course.Alone? {
        AloneKeeps(r.table, history, r.pushes, job);
      } else {
        GroupExact(r.table, history, r.pushes, job);
      }
    }
  }

  ghost predicate FaultyAt(start: Round, jobs: seq<Job>, i: nat)
    requires i < |jobs|
  {
    RoundOf(start, jobs[..i]).ending.Next? && Faulty(RoundOf(start, jobs[..i]).table, jobs[i])
  }

  ghost predicate SoundAfter(start: Round, history: set<string>, jobs: seq<Job>, i: nat)
    requires i <= |jobs|
  {
    Inv(RoundOf(start, jobs[..i]).table, history, RoundOf(start, jobs[..i]).pushes)
  }

  // So a round is sound all the way if and only if no job of it is that fault.
  lemma {:induction false} RoundExact(start: Round, history: set<string>, jobs: seq<Job>)
    requires Inv(start.table, history, start.pushes)
    ensures (forall i: nat | i <= |jobs| :: SoundAfter(start, history, jobs, i))
            <==> forall i: nat | i < |jobs| :: !FaultyAt(start, jobs, i)
    decreases |jobs|
  {
    if jobs == [] {
      assert jobs[..0] == [];
      assert RoundOf(start, []) == start;
    } else {
      var n := |jobs| - 1;
      var front := jobs[..n];
      RoundExact(start, history, front);
      assert jobs[..|jobs|] == jobs && front[..n] == front;
      assert RoundOf(start, jobs) == AfterOne(RoundOf(start, front), jobs[n]);
      if Inv(RoundOf(start, front).table, history, RoundOf(start, front).pushes) {
        JobExact(RoundOf(start, front), history, jobs[n]);
      }
      hide Inv, RoundOf, Faulty, AfterOne;
      forall i: nat | i <= n ensures SoundAfter(start, history, jobs, i) <==> SoundAfter(start, history, front, i) {
        assert jobs[..i] == front[..i];
      }
      forall i: nat | i < n ensures FaultyAt(start, jobs, i) <==> FaultyAt(start, front, i) {
        assert jobs[..i] == front[..i];
      }
      assert SoundAfter(start, history, jobs, n) && !FaultyAt(start, jobs, n) ==> SoundAfter(start, history, jobs, |jobs|);
      assert SoundAfter(start, history, jobs, n) && FaultyAt(start, jobs, n) ==> !SoundAfter(start, history, jobs, |jobs|);
    }
  }

  function LostInGroup(p: Pair): Job {
    Job(p, Group([p], Some(Raised), OtherFault), 0, {}, {}, true)
  }

  lemma LostRecord(p: Pair)
    ensures Faulty(map[p := Row(Pending, 0, false)], LostInGroup(p))
    ensures AfterOne(Round(map[p := Row(Pending, 0, false)], [], Next), LostInGroup(p))
            == Round(map[p := Row(Pending, 1, false)], [Push({p}, 0, Some(Raised))], Next)
  {
    var queued, job := map[p := Row(Pending, 0, false)], LostInGroup(p);
    assert SetOf([p]) == {p};
    assert Members(queued, p, job.course) == {p};
    assert AfterJob(queued, job) == map[p := Row(Pending, 1, false)];
  }

  // So a notification can be pushed twice although the first push may have arrived: pushed in
  // a group, no answer, no record, made pending; and in the next round pushed alone.
  lemma GroupFaultPushesTwice(id: string, device: string, result: Result)
    ensures var p := Pair(id, device);
      var start := Round(map[p := Row(Pending, 0, false)], [], Next);
      var first := RoundOf(start, [LostInGroup(p)]);
      var second := RoundOf(Round(first.table, first.pushes, Next), [Job(p, Alone(Some(result)), 1, {}, {}, true)]);
      && Inv(start.table, {id}, [])
      && FaultyAt(start, [LostInGroup(p)], 0)
      && second.pushes == [Push({p}, 0, Some(Raised)), Push({p}, 1, Some(result))]
      && !PushedOnce(second.pushes)
  {
    var p := Pair(id, device);
    var start := Round(map[p := Row(Pending, 0, false)], [], Next);
    OneJob(start, LostInGroup(p));
    LostRecord(p);
    var first := AfterOne(start, LostInGroup(p));
    OneJob(first, Job(p, Alone(Some(result)), 1, {}, {}, true));
    UntoldTwice(p, result);
    assert Inv(start.table, {id}, []);
    hide AfterJob, Faulty, RoundOf, PushedOnce, Inv;
    assert [LostInGroup(p)][..0] == [];
  }

  lemma UntoldTwice(p: Pair, result: Result)
    ensures !PushedOnce([Push({p}, 0, Some(Raised)), Push({p}, 1, Some(result))])
  {
    var pushes := [Push({p}, 0, Some(Raised)), Push({p}, 1, Some(result))];
    assert p in pushes[0].members && p in pushes[1].members && !ToldToRetry(pushes[0]);
  }

  lemma OneJob(start: Round, job: Job)
    ensures RoundOf(start, [job]) == AfterOne(start, job) && [job][..0] == [] && RoundOf(start, []) == start
  {
    assert [job][..0] == [];
  }

  lemma ClaimOneMore(table: Table, members: set<Pair>, p: Pair)
    requires p in table && p !in members
    ensures var t := ClaimAll(table, members);
      ClaimAll(table, members + {p}) == t[p := t[p].(state := Sending, attempts := t[p].attempts + 1)]
  {}

  class Notifications {
    var table: Table
    var history: set<string>
    ghost var pushes: seq<Push>

    ghost predicate Valid()
      reads this
    {
      Inv(table, history, pushes)
    }

    constructor ()
      ensures Valid() && table == map[] && history == {} && pushes == []
    {
      table, history, pushes := map[], {}, [];
    }

    // A claim that outlived its process may have been pushed.
    method Restart()
      requires Valid()
      modifies this`table
      ensures Valid() && table == Restarted(old(table)) && table.Keys == old(table).Keys
      ensures forall p | p in table :: table[p] == if old(table)[p].state != Sending then old(table)[p]
                else Row(Unknown, old(table)[p].attempts, old(table)[p].seen)
    {
      NoNewPending(table, Restarted(table), history, pushes);
      table := map p | p in table :: if table[p].state.Sending? then table[p].(state := Unknown) else table[p];
    }

    // A notification is queued for every device once; asking again adds nothing.
    method Enqueue(id: string, devices: set<string>) returns (inserted: bool)
      requires Valid()
      modifies this
      ensures Valid() && pushes == old(pushes) && history == old(history) + {id}
      ensures inserted == (id !in old(history))
      ensures forall p | p in old(table) :: p in table && table[p] == old(table)[p]
      ensures forall p | p in table && p !in old(table) ::
                inserted && p.id == id && p.device in devices && table[p] == Row(Pending, 0, false)
      ensures inserted ==> forall d | d in devices :: Pair(id, d) in table
    {
      if id in history {
        assert history == history + {id};
        return false;
      }
      var targets := set d | d in devices :: Pair(id, d);
      var rows := map p | p in targets :: Row(Pending, 0, false);
      forall p | p in rows ensures p !in table {}
      table := table + rows;
      history := history + {id};
      return true;
    }

    // A browser's receipt for one delivery, or for a group as it was pushed.
    method Receipt(members: set<Pair>)
      modifies this`table
      ensures table == AcceptAll(old(table), members) && table.Keys == old(table).Keys
      ensures forall p | p in table :: var was := old(table)[p];
                table[p] == if p in members && was.state != Expired && was.state != Failed && was.state != Canceled
                            then Row(Accepted, was.attempts, true) else was
      ensures old(Valid()) ==> Valid()
    {
      if Inv(table, history, pushes) {
        NoNewPending(table, AcceptAll(table, members), history, pushes);
      }
      table := AcceptAll(table, members);
    }

    method Cancel(members: set<Pair>)
      modifies this`table
      ensures table == CancelAll(old(table), members)
      ensures old(Valid()) ==> Valid()
    {
      if Inv(table, history, pushes) {
        NoNewPending(table, CancelAll(table, members), history, pushes);
      }
      table := CancelAll(table, members);
    }

    // All or none is claimed; the service is called with what was claimed.
    method ClaimAndPush(selected: seq<Pair>, attempts: nat, result: Option<Result>) returns (pushed: bool)
      requires Different(selected)
      modifies this`table, this`pushes
      ensures old(Valid()) ==> Valid()
      ensures pushed == (selected != [] && forall p | p in selected :: p in old(table) && old(table)[p].state.Pending?)
      ensures !pushed ==> table == old(table) && pushes == old(pushes)
      ensures pushed ==> table == ClaimAll(old(table), SetOf(selected))
                         && pushes == old(pushes) + [Push(SetOf(selected), attempts, result)]
    {
      if selected == [] || exists p | p in selected :: !(p in table && table[p].state.Pending?) {
        return false;
      }
      if Inv(table, history, pushes) {
        ClaimThenPush(table, history, pushes, SetOf(selected), attempts, result);
      }
      hide Inv;
      ghost var before := table;
      assert ClaimAll(table, {}) == table && SetOf(selected[..0]) == {};
      for i := 0 to |selected|
        invariant table == ClaimAll(before, SetOf(selected[..i])) && pushes == old(pushes)
      {
        var p := selected[i];
        assert p in selected && SetOf(selected[..i + 1]) == SetOf(selected[..i]) + {p};
        ClaimOneMore(before, SetOf(selected[..i]), p);
        table := table[p := table[p].(state := Sending, attempts := table[p].attempts + 1)];
      }
      assert selected[..|selected|] == selected;
      pushes := pushes + [Push(SetOf(selected), attempts, result)];
      return true;
    }

    // Receipts and cancellations that come while the dispatcher works.
    method Others(acks: set<Pair>, cancels: set<Pair>)
      modifies this`table
      ensures table == Meanwhile(old(table), acks, cancels)
      ensures old(Valid()) ==> Valid()
    {
      hide Inv;
      Receipt(acks);
      Cancel(cancels);
    }

    // What a job adds to the round.
    ghost predicate Took(before: Table, sent: seq<Push>, job: Job)
      reads this
    {
      && table == AfterJob(before, job)
      && pushes == if Members(before, job.first, job.course) == {} then sent else sent + [PushOf(before, job)]
    }

    // A job pushed by itself. If its outcome cannot be recorded the round ends, and the row
    // stays claimed until a restart.
    method DeliverAlone(job: Job) returns (ending: Ending)
      requires Due(table, job) && job.course.Alone?
      modifies this`table, this`pushes
      ensures Took(old(table), old(pushes), job) && ending == EndingOf(old(table), job)
      ensures old(Valid()) ==> Valid()
    {
      if Inv(table, history, pushes) {
        AloneKeeps(table, history, pushes, job);
      }
      hide Inv, Outcome;
      var result := job.course.result;
      assert SetOf([job.first]) == {job.first};
      var pushed := ClaimAndPush([job.first], job.attempts, result);
      if result.None? {
        return Died;
      }
      Others(job.acks, job.cancels);
      if !job.recorded {
        return Raises;
      }
      table := RecordAll(table, {job.first}, Outcome(result.value, job.attempts), true);
      return Next;
    }

    // A job that went out with others. What raises here is handled as if the first job had
    // not been attempted.
    method DeliverGroup(job: Job) returns (ending: Ending)
      requires Due(table, job) && job.course.Group? && WellFormed(job)
      modifies this`table, this`pushes
      ensures Took(old(table), old(pushes), job) && ending == EndingOf(old(table), job)
      ensures old(Valid()) ==> (Valid() <==> !Faulty(old(table), job))
    {
      ghost var before := table;
      if Inv(table, history, pushes) {
        JobExact(Round(table, pushes, Next), history, job);
      }
      hide Inv, Outcome, Faulty;
      var selected := job.course.selected;
      assert selected != [] ==> selected[0] in SetOf(selected);
      var pushed := ClaimAndPush(selected, job.attempts, job.course.result);
      if !pushed {
        return Next;
      }
      if job.course.result.None? {
        return Died;
      }
      Others(job.acks, job.cancels);
      if job.course.recording.Recorded? {
        table := RecordAll(table, SetOf(selected), Outcome(job.course.result.value, job.attempts), false);
        return Next;
      }
      if !job.recorded {
        return Raises;
      }
      table := RecordAll(table, {job.first}, if job.course.recording.ValueFault? then Canceled else Pending, true);
      return Next;
    }

    // One job of a round. Everything keeps the invariant but that one fault.
    method DeliverJob(job: Job) returns (ending: Ending)
      requires job.first in table && WellFormed(job)
      modifies this`table, this`pushes
      ensures Round(table, pushes, ending) == AfterOne(Round(old(table), old(pushes), Next), job)
      ensures old(Valid()) ==> (Valid() <==> !Faulty(old(table), job))
    {
      if Inv(table, history, pushes) {
        JobExact(Round(table, pushes, Next), history, job);
      }
      hide Inv, Outcome, Faulty;
      if !table[job.first].state.Pending? {
        return Next;
      }
      match job.course {
        case Leave =>
          ending := Next;
        case Refuse =>
          Cancel({job.first});
          ending := Next;
        case Late =>
          ending := Close(job, Expired);
        case Trouble(valueError) =>
          Others(job.acks, job.cancels);
          ending := Close(job, if valueError then Canceled else Pending);
        case Alone(_) =>
          ending := DeliverAlone(job);
        case Group(_, _, _) =>
          ending := DeliverGroup(job);
      }
    }

    // The closing record of a job nothing was sent for.
    method Close(job: Job, to: State) returns (ending: Ending)
      modifies this`table
      ensures table == if job.recorded then RecordAll(old(table), {job.first}, to, true) else old(table)
      ensures ending == if job.recorded then Next else Raises
    {
      if !job.recorded {
        return Raises;
      }
      table := RecordAll(table, {job.first}, to, true);
      return Next;
    }

    // A round over the jobs that were due: one dispatcher, one job after the other, until the
    // end, an exception or the process's death. If no job of it is the fault, no delivery is
    // pushed again that was not told to retry.
    method Deliver(jobs: seq<Job>)
      requires forall j | j in jobs :: j.first in table && WellFormed(j)
      modifies this`table, this`pushes
      ensures var end := RoundOf(Round(old(table), old(pushes), Next), jobs);
        table == end.table && pushes == end.pushes
      ensures old(Valid()) && (forall i: nat | i < |jobs| :: !FaultyAt(Round(old(table), old(pushes), Next), jobs, i))
              ==> Valid() && PushedOnce(pushes)
    {
      ghost var start := Round(table, pushes, Next);
      if Inv(table, history, pushes) {
        RoundExact(start, history, jobs);
      }
      assert jobs[..|jobs|] == jobs;
      assert old(Valid()) && (forall i: nat | i < |jobs| :: !FaultyAt(start, jobs, i)) ==>
               SoundAfter(start, history, jobs, |jobs|);
      hide Inv, AfterOne, FaultyAt;
      var ending := Next;
      for i := 0 to |jobs|
        invariant Round(table, pushes, ending) == RoundOf(start, jobs[..i])
        invariant table.Keys == old(table).Keys
      {
        assert jobs[..i + 1][..i] == jobs[..i] && jobs[i] in jobs;
        AfterOneKeys(RoundOf(start, jobs[..i]), jobs[i]);
        if ending.Next? {
          ending := DeliverJob(jobs[i]);
        }
      }
    }
  }

  lemma AfterOneKeys(r: Round, job: Job)
    ensures AfterOne(r, job).table.Keys == r.table.Keys
    ensures !r.ending.Next? ==> AfterOne(r, job) == r
  {
    hide Outcome, Members;
  }
}

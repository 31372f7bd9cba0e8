/**
 The journal as the program runs it: the tables are fields that its methods reassign, one
 commit at a time, with the homeserver going its own way between any two of them. Every
 commit is one action of PolicyJournal, so all that JournalTheorems and CommandTheorems
 say of every run holds at every moment of every call.
 */
module ConsentJournal {
  import opened Wrappers
  import opened PolicyJournal
  import opened JournalInvariants
  import opened JournalContents
  import opened JournalTheorems

  // How the transport classifies the answer to a policy PUT.
  datatype Reply = Success | ClientError | TooManyRequests | Silence

  // A retryable outcome is a definite non-application, before or after the PUT was sent.
  datatype WriteOutcome = Written | WriteRefused | WriteRetryable(sent: bool) | WriteUnknown

  // What the outside world does during one call: the authorization callback (None: it
  // raised), which requests fail, the reply, and what the homeserver does in between.
  datatype Weather = Weather(
    authorized: Option<bool>, readable: bool, fenceReadable: bool, attempt: AttemptId,
    markerSent: bool, markerAnswered: bool, reply: Reply, rereadable: bool,
    gusts: map<nat, seq<ServerAction>>)

  function Gust(w: Weather, i: nat): seq<ServerAction> {
    if i in w.gusts then w.gusts[i] else []
  }

  // raised stands for the ValueErrors the source lets through.
  datatype Outcome = NothingToDo | Raised(error: string) | Reported(k: nat, state: OpState, reason: string)

  datatype ReadOutcome = Unreadable | Exhausted | Fresh(content: Content)

  class Journal {
    // durable tables
    var rooms: map<RoomId, Room>
    var ops: seq<Op>
    var attempts: map<AttemptId, Attempt>
    var commands: map<CommandId, Command>
    var children: map<OpId, CommandId>
    // this process
    var authority: Authority
    var localReady: bool
    // the homeserver
    var world: World
    ghost var sys: Sys

    function Tables(): Db
      reads this
    {
      Db(rooms, ops, attempts, commands, children)
    }

    // The fields are the database and the server of a reachable state of the model.
    ghost predicate Coupled()
      reads this
    {
      Reachable(sys) && sys.db == Tables() && sys.world == world
    }

    ghost predicate Valid()
      reads this
    {
      Coupled() && sys.pc.Idle?
    }

    constructor (authority: Authority)
      ensures Valid() && Tables() == EMPTY_DB && world == EMPTY_WORLD
    {
      rooms, ops, attempts, commands, children := map[], [], map[], map[], map[];
      world := EMPTY_WORLD;
      this.authority := authority;
      localReady := false;
      sys := INITIAL;
      new;
      assert Exec(INITIAL, []) == INITIAL;
    }

    // Marks a commit, or an exchange with the server, as one action of the model.
    ghost method Advance(a: Action)
      requires Reachable(sys) && Enabled(sys, a)
      requires Tables() == Apply(sys, a).db && world == Apply(sys, a).world
      modifies this`sys
      ensures Coupled() && sys == Apply(old(sys), a)
    {
      ReachableStep(sys, a);
      sys := Apply(sys, a);
    }

    // The server, its other clients and the network, while the process waits or is down.
    method Drift(gust: seq<ServerAction>)
      requires Coupled()
      modifies this`world, this`sys
      ensures Coupled() && sys.pc == old(sys.pc)
      ensures world.issued == old(world.issued) && world.used == old(world.used)
      ensures old(world).committed <= world.committed && old(world).markers <= world.markers
      ensures world.flying <= old(world).flying
      ensures world == Blown(old(world), gust)
    {
      for i := 0 to |gust|
        invariant world == Blown(old(world), gust[..i])
        invariant Coupled() && sys.pc == old(sys.pc)
        invariant world.issued == old(world.issued) && world.used == old(world.used)
        invariant old(world).committed <= world.committed && old(world).markers <= world.markers
        invariant world.flying <= old(world).flying
      {
        assert gust[..i + 1][..i] == gust[..i];
        if ServerOk(world, gust[i]) {
          world := ServerWorld(world, gust[i]);
          Advance(Server(gust[i]));
        }
      }
      assert gust[..|gust|] == gust;
    }

    // The process dies: nothing but the tables and the server survive.
    method Restart()
      requires Coupled()
      modifies this`localReady, this`sys
      ensures Valid() && sys.db == old(sys.db) && !localReady
    {
      localReady := false;
      Advance(Crash);
    }

    // ---------------------------------------------------------------- observing

    // Updates the revision for an external change, or confirms a recorded PUT.
    method Observe(room: RoomId, content: Content) returns (ok: bool)
      requires Coupled() && sys.pc.Holding? && sys.pc.room == room && sys.pc.content == content
      modifies this`rooms, this`ops, this`sys
      ensures ok == ObserveDb(old(Tables()), room, content).Some?
      ensures Coupled()
      ensures ok ==> Tables() == ObserveDb(old(Tables()), room, content).value && |ops| == |old(ops)|
                     && sys.pc == Seen(old(sys.pc.job), room, content)
      ensures !ok ==> Tables() == old(Tables()) && sys.pc.Idle?
    {
      if room !in rooms {
        rooms := rooms[room := Room(0, content)];
      } else if content != rooms[room].observed {
        var row := rooms[room];
        var revision := row.revision + 1;
        if revision >= MAX_REVISION {
          Advance(Journal(GiveUp));
          return false;
        }
        var first := FirstInWrite(ops, room);
        if first.Some? && ops[first.value].intended == Some(content) {
          var k := first.value;
          if ops[k].resulting == Some(revision) && ops[k].previous == Some(row.observed) {
            ops := ops[k := ops[k].(state := Applied, reason := "")];
          } else {
            ops := ops[k := ops[k].(state := OutcomeUnknown, reason := "superseded-write-confirmed")];
          }
        }
        rooms := rooms[room := Room(revision, content)];
      }
      Advance(Journal(JournalAction.Observe));
      return true;
    }

    // The read every path starts with, and what the tables make of it.
    method ReadAndObserve(job: Job, room: RoomId, readable: bool, gust: seq<ServerAction>) returns (r: ReadOutcome)
      requires Coupled() && sys.pc == Ready(job, room)
      modifies this`rooms, this`ops, this`world, this`sys
      ensures Coupled() && world.issued == old(world).issued && |ops| == |old(ops)|
      ensures old(world).committed <= world.committed
      ensures r.Unreadable? <==> !readable
      ensures world == Blown(old(world), gust)
      ensures if r.Fresh? then
                sys.pc == Seen(job, room, r.content) && ObserveDb(old(Tables()), room, r.content) == Some(Tables())
                && r.content == RemoteContent(world, room)
                && room in rooms && rooms[room].observed == r.content
              else
                sys.pc.Idle? && Tables() == old(Tables())
                && (r.Exhausted? ==> ObserveDb(old(Tables()), room, RemoteContent(world, room)).None?)
    {
      Drift(gust);
      if !readable {
        Advance(Journal(GiveUp));
        return Unreadable;
      }
      var content := RemoteContent(world, room);
      Advance(Journal(Fetch));
      var ok := Observe(room, content);
      if !ok {
        return Exhausted;
      }
      ObserveShape(old(Tables()), room, content);
      return Fresh(content);
    }

    // The confirmed current revision of a room; None when it cannot be read.
    method Inspect(room: RoomId, weather: Weather) returns (revision: Option<nat>)
      requires Valid()
      modifies this`rooms, this`ops, this`world, this`sys
      ensures Valid()
      ensures if revision.Some? then
                && room in rooms && rooms[room].revision == revision.value
                && ObserveDb(old(Tables()), room, rooms[room].observed) == Some(Tables())
              else Tables() == old(Tables())
      ensures var now := RemoteContent(Blown(old(world), Gust(weather, 0)), room);
        && (revision.Some? <==> weather.readable && ObserveDb(old(Tables()), room, now).Some?)
        && (revision.Some? ==> rooms[room].observed == now)
    {
      Advance(Journal(Start(ForInspect, room)));
      var read := ReadAndObserve(ForInspect, room, weather.readable, Gust(weather, 0));
      if !read.Fresh? {
        return None;
      }
      Advance(Journal(GiveUp));
      return Some(rooms[room].revision);
    }

    // ---------------------------------------------------------------- intents

    // A repeated manual intent may come from another generation of the pairing.
    predicate SameIntent(stored: Request, request: Request) {
      if request.id.ManualOp? then
        && stored.id == request.id && stored.actor == request.actor && stored.room == request.room
        && stored.authority.localUser == request.authority.localUser
        && stored.expected == request.expected && stored.level == request.level
      else stored == request
    }

    method Submit(request: Request) returns (r: Result<nat, string>)
      requires Valid()
      requires request.id.CrmOp? ==>
                 && request.id.room == request.room && request.id.command in commands
                 && commands[request.id.command].state.Committing?
                 && request.room in commands[request.id.command].rooms
                 && AsTicketed(request, commands[request.id.command])
      modifies this`ops, this`sys
      ensures Valid()
      ensures r.Ok? ==>
                && r.value < |ops|
                && var stored := ops[r.value].request;
                && stored.id == request.id && stored.actor == request.actor && stored.room == request.room
                && stored.expected == request.expected && stored.level == request.level
                && stored.authority.localUser == request.authority.localUser
                && (request.id.CrmOp? ==> stored == request)
      ensures r == Err("operation-id-collision") <==>
                FindOp(old(ops), request.id).Some?
                && var stored := old(ops)[FindOp(old(ops), request.id).value].request;
                !(if request.id.CrmOp? then stored == request
                  else && stored.actor == request.actor && stored.room == request.room
                       && stored.authority.localUser == request.authority.localUser
                       && stored.expected == request.expected && stored.level == request.level)
      ensures if FindOp(old(ops), request.id).Some? then
                ops == old(ops) && (r == Ok(FindOp(old(ops), request.id).value) || r == Err("operation-id-collision"))
              else if request.room in rooms then
                r == Ok(|old(ops)|) && ops == old(ops) + [Op(request, Queued, "", None, None, None)]
              else r == Err("policy-not-observed") && ops == old(ops)
    {
      var previous := FindOp(ops, request.id);
      if previous.Some? {
        if !SameIntent(ops[previous.value].request, request) {
          return Err("operation-id-collision");
        }
        return Ok(previous.value);
      }
      if request.room !in rooms {
        return Err("policy-not-observed");
      }
      ops := ops + [Op(request, Queued, "", None, None, None)];
      Advance(Journal(JournalAction.Submit(request)));
      return Ok(|ops| - 1);
    }

    // Cancels only a grant that was never attempted; None when there is no such grant.
    method CancelCrm(id: OpId) returns (r: Option<OpState>)
      requires Valid() && id.CrmOp?
      modifies this`ops, this`sys
      ensures Valid()
      ensures r.None? <==> FindOp(old(ops), id).None?
      ensures |ops| == |old(ops)|
      ensures forall j | 0 <= j < |ops| ::
                if r.Some? && j == FindOp(old(ops), id).value && old(ops)[j].state.Queued?
                then ops[j] == old(ops)[j].(state := Canceled, reason := "membership-intent-canceled")
                else ops[j] == old(ops)[j]
      ensures r.Some? ==> r.value == ops[FindOp(old(ops), id).value].state && !r.value.Queued?
    {
      var found := FindOp(ops, id);
      if found.None? {
        return None;
      }
      var k := found.value;
      if ops[k].state.Queued? {
        ops := ops[k := ops[k].(state := Canceled, reason := "membership-intent-canceled")];
        Advance(Journal(CancelQueued(k)));
      }
      return Some(ops[k].state);
    }

    // What still bars dispatch and sharing in a room, in sequence order.
    method Pending(room: RoomId) returns (r: seq<nat>)
      ensures forall i, j | 0 <= i < j < |r| :: r[i] < r[j]
      ensures forall k: nat :: k in r <==>
                && k < |ops| && ops[k].request.room == room
                && (ops[k].state == Queued || ops[k].state == Prepared || ops[k].state == Verifying)
    {
      r := [];
      for k := 0 to |ops|
        invariant forall i | 0 <= i < |r| :: r[i] < k
        invariant forall i, j | 0 <= i < j < |r| :: r[i] < r[j]
        invariant forall j: nat :: j in r <==> j < k && ops[j].request.room == room && !Terminal(ops[j].state)
      {
        if ops[k].request.room == room && !Terminal(ops[k].state) {
          r := r + [k];
        }
      }
    }

    // ---------------------------------------------------------------- processing

    // Each attempt has its marker on the server, each marker there has its attempt, and each
    // attempt is that of an operation.
    ghost predicate MarkersMatch(attempts: map<AttemptId, Attempt>, ops: seq<Op>, w: World) {
      && (forall a <- attempts :: Marker(a, attempts[a].sequence, attempts[a].op) in w.markers)
      && (forall m <- w.markers ::
            m.attempt in attempts && attempts[m.attempt].sequence == m.sequence && attempts[m.attempt].op == m.op)
      && (forall a <- attempts :: exists op <- ops :: op.request.id == attempts[a].op)
    }

    // Checks that the markers on the server are exactly the local attempts, then records
    // a new attempt. It succeeds if and only if they are. On failure nothing was sent.
    method OpenFence(k: nat, weather: Weather) returns (ok: bool)
      requires Coupled() && sys.pc == Writing(k) && k < |ops|
      modifies this`attempts, this`localReady, this`world, this`sys
      ensures Coupled() && world.issued == old(world).issued
      ensures ok <==>
                && weather.fenceReadable && weather.attempt !in old(world).used
                && MarkersMatch(old(attempts), ops, world)
      ensures var now := Blown(old(world), Gust(weather, 1));
        world == if ok then now.(used := now.used + {weather.attempt}) else now
      ensures if ok then
                sys.pc == Fencing(k, weather.attempt)
                && attempts == Confirm(old(attempts))[weather.attempt := Attempt(k, ops[k].request.id, false)]
              else sys.pc == Writing(k) && attempts == old(attempts) && !localReady
    {
      Drift(Gust(weather, 1));
      KnownOps(old(attempts), ops);
      if !weather.fenceReadable || !FenceMatches(Tables(), world) || weather.attempt in world.used {
        localReady := false;
        return false;
      }
      attempts := Confirm(attempts);
      Advance(Fence(VerifyFence));
      attempts := attempts[weather.attempt := Attempt(k, ops[k].request.id, false)];
      world := world.(used := world.used + {weather.attempt});
      Advance(Fence(OpenAttempt(weather.attempt)));
      return true;
    }

    lemma KnownOps(attempts: map<AttemptId, Attempt>, ops: seq<Op>)
      ensures forall a <- attempts ::
                FindOp(ops, attempts[a].op).Some? <==> exists op <- ops :: op.request.id == attempts[a].op
    {
      forall a <- attempts
        ensures FindOp(ops, attempts[a].op).Some? <==> exists op <- ops :: op.request.id == attempts[a].op
      {
        if op :| op in ops && op.request.id == attempts[a].op {
          var i :| 0 <= i < |ops| && ops[i] == op;
        }
      }
    }

    // Puts the new marker on the server and reads it back.
    method SetMarker(k: nat, weather: Weather) returns (ok: bool)
      requires Coupled() && k < |ops| && sys.pc == Fencing(k, weather.attempt) && weather.attempt in attempts
      requires attempts[weather.attempt] == Attempt(k, ops[k].request.id, false)
      modifies this`attempts, this`localReady, this`world, this`sys
      ensures Coupled() && world.issued == old(world).issued
      ensures var marker := Marker(weather.attempt, k, ops[k].request.id);
        && (ok <==> weather.markerSent && weather.markerAnswered && marker in world.markers)
        && world == if !weather.markerSent then old(world)
                    else Blown(old(world).(markersFlying := old(world).markersFlying + {marker}), Gust(weather, 2))
      ensures if ok then
                sys.pc == Fenced(k, weather.attempt) && Marker(weather.attempt, k, ops[k].request.id) in world.markers
                && attempts == old(attempts)[weather.attempt := Attempt(k, ops[k].request.id, true)]
              else (sys.pc.Fencing? || sys.pc.MarkerSent?) && sys.pc.k == k && attempts == old(attempts) && !localReady
    {
      if !weather.markerSent {
        localReady := false;
        return false;
      }
      var marker := Marker(weather.attempt, k, ops[k].request.id);
      world := world.(markersFlying := world.markersFlying + {marker});
      Advance(Fence(SendMarker));
      Drift(Gust(weather, 2));
      if !weather.markerAnswered || marker !in world.markers {
        localReady := false;
        return false;
      }
      attempts := attempts[weather.attempt := attempts[weather.attempt].(confirmed := true)];
      Advance(Fence(ConfirmMarker));
      return true;
    }

    lemma UsedApart(attempts: map<AttemptId, Attempt>, ops: seq<Op>, w: World, x: World)
      requires w.markers == x.markers
      ensures MarkersMatch(attempts, ops, w) <==> MarkersMatch(attempts, ops, x)
    {}

    // The markers are read and match, and the new one is sent and read back.
    ghost predicate FenceStands(d: Db, w: World, k: nat, weather: Weather)
      requires k < |d.ops|
    {
      var marker, now := Marker(weather.attempt, k, d.ops[k].request.id), Blown(w, Gust(weather, 1));
      var sent := now.(used := now.used + {weather.attempt}, markersFlying := now.markersFlying + {marker});
      && weather.fenceReadable && weather.attempt !in w.used && MarkersMatch(d.attempts, d.ops, now)
      && weather.markerSent && weather.markerAnswered && marker in Blown(sent, Gust(weather, 2)).markers
    }

    // Only an answer that fits what became of the request settles it.
    ghost function AnswerTo(reply: Reply, landed: bool): WriteOutcome {
      if reply == Success && landed then Written
      else if reply == ClientError && !landed then WriteRefused
      else if reply == TooManyRequests && !landed then WriteRetryable(true)
      else WriteUnknown
    }

    predicate BeforeThePut(outcome: WriteOutcome) {
      outcome.WriteRetryable? && !outcome.sent
    }

    // The outcome of a write says truly how far it got and what came of it.
    ghost predicate Settles(k: nat, outcome: WriteOutcome, attempt: AttemptId)
      reads this
    {
      && (BeforeThePut(outcome) ==>
            (sys.pc.Writing? || sys.pc.Verified? || sys.pc.Fencing? || sys.pc.MarkerSent?) && sys.pc.k == k)
      && (!BeforeThePut(outcome) ==> sys.pc == Sent(k, attempt))
      && (outcome.WriteRefused? || (outcome.WriteRetryable? && outcome.sent) ==> !Committed(world, attempt))
      && (outcome.Written? ==> Committed(world, attempt))
    }

    // The fenced write of a prepared operation. No policy request starts until a fresh
    // marker has been read back; an answer that settles nothing leaves the PUT alive.
    method WriteOverride(k: nat, weather: Weather) returns (outcome: WriteOutcome)
      requires Coupled() && sys.pc == Writing(k) && k < |ops|
      modifies this`attempts, this`localReady, this`world, this`sys
      ensures Coupled() && Settles(k, outcome, weather.attempt)
      ensures if BeforeThePut(outcome) then world.issued == old(world).issued
              else world.issued == old(world).issued + {weather.attempt} && forall a <- old(world).issued :: a in attempts
      ensures !BeforeThePut(outcome) ==> SendsRequest(k, weather.attempt)
      ensures BeforeThePut(outcome) <==> !FenceStands(old(Tables()), old(world), k, weather)
      ensures !BeforeThePut(outcome) ==> outcome == AnswerTo(weather.reply, Committed(world, weather.attempt))
    {
      hide Blown, MarkersMatch, SendsRequest, Reachable, Committed, AnswerTo;
      ghost var marker, now := Marker(weather.attempt, k, ops[k].request.id), Blown(world, Gust(weather, 1));
      var ready := OpenFence(k, weather);
      if !ready {
        assert world == now;
        return WriteRetryable(false);
      }
      ghost var begun := world;
      assert now.(used := now.used + {weather.attempt}, markersFlying := now.markersFlying + {marker})
             == begun.(markersFlying := begun.markersFlying + {marker});
      assert MarkersMatch(old(attempts), ops, now) by {
        UsedApart(old(attempts), ops, now, begun);
      }
      var fenced := SetMarker(k, weather);
      if !fenced {
        return WriteRetryable(false);
      }
      outcome := PutPolicy(k, weather);
    }

    // The PUT of an attempt says what operation k asks for, in its room.
    ghost predicate SendsRequest(k: nat, attempt: AttemptId)
      requires k < |ops|
      reads this
    {
      forall p | Alive(world, p) && p.attempt == attempt ::
        && p.room == ops[k].request.room && p.op == ops[k].request.id && Carries(ops[k].request, p.content)
    }

    // What was last read in the room of operation k is what the operation stored.
    ghost predicate ShowsRequest(k: nat)
      reads this
    {
      && k < |ops| && ops[k].request.room in rooms
      && ops[k].intended == Some(rooms[ops[k].request.room].observed)
    }

    // The policy PUT itself, and what its answer may say.
    method PutPolicy(k: nat, weather: Weather) returns (outcome: WriteOutcome)
      requires Coupled() && sys.pc == Fenced(k, weather.attempt) && k < |ops|
      modifies this`world, this`sys
      ensures Coupled() && sys.db == old(sys.db) && Settles(k, outcome, weather.attempt) && !BeforeThePut(outcome)
      ensures world.issued == old(world).issued + {weather.attempt}
      ensures forall a <- old(world).issued :: a in attempts
      ensures SendsRequest(k, weather.attempt)
      ensures outcome == AnswerTo(weather.reply, Committed(world, weather.attempt))
    {
      ReachableInv(sys);
      IssueRemembersAll(sys);
      var put := Put(weather.attempt, ops[k].request.id, k, ops[k].request.room, ops[k].intended.value);
      world := world.(flying := world.flying + {put}, issued := world.issued + {weather.attempt});
      Advance(Fence(IssuePut));
      Drift(Gust(weather, 3));
      forall p | Alive(world, p) && p.attempt == weather.attempt
        ensures Carries(ops[k].request, p.content) && p.room == ops[k].request.room && p.op == ops[k].request.id
      {
        SentCarries(sys, p);
      }
      var landed := Committed(world, weather.attempt);
      outcome :=
        match weather.reply
        case Success => if landed then Written else WriteUnknown
        case ClientError => if landed then WriteUnknown else WriteRefused
        case TooManyRequests => if landed then WriteUnknown else WriteRetryable(true)
        case Silence => WriteUnknown;
    }

    // Reads back after an attempt. No write from this path, ever.
    method Reconcile(k: nat, readable: bool, gust: seq<ServerAction>) returns (r: Outcome)
      requires Coupled() && k < |ops| && sys.pc == Ready(ForReconcile(k), ops[k].request.room)
      modifies this`rooms, this`ops, this`world, this`sys
      ensures Valid() && |ops| == |old(ops)|
      ensures world.issued == old(world).issued && old(world).committed <= world.committed
      ensures r.Reported? ==> r.k == k && r.state == ops[k].state
      ensures !r.NothingToDo?
      ensures !readable ==> Tables() == old(Tables()) && r == Reported(k, ops[k].state, "reconcile-read-failed")
      ensures readable ==>
                var n := Reconciled(old(Tables()), k, RemoteContent(world, old(ops)[k].request.room));
                if n.None? then Tables() == old(Tables()) && r == Raised("revision-exhausted")
                else Tables() == n.value && r == Reported(k, ops[k].state, ops[k].reason)
      // Only the exact marker, or a 2xx answer before, ends the operation.
      ensures InWrite(old(ops)[k].state) && Terminal(ops[k].state) ==>
                || old(ops)[k].intended == Some(RemoteContent(world, ops[k].request.room))
                || (old(ops)[k].state.Verifying? && ops[k].state.OutcomeUnknown?)
      ensures InWrite(old(ops)[k].state) && ops[k].state.Applied? ==> ShowsRequest(k)
    {
      ReachableInv(sys);
      ghost var before := Tables();
      var read := ReadAndObserve(ForReconcile(k), ops[k].request.room, readable, gust);
      if read.Unreadable? {
        return Reported(k, ops[k].state, "reconcile-read-failed");
      }
      if read.Exhausted? {
        return Raised("revision-exhausted");
      }
      r := Conclude(k);
      if InWrite(before.ops[k].state) {
        ReconciledShows(before, k, read.content);
      }
    }

    // A baseline or another marker proves nothing of a PUT that may still commit: it keeps
    // its barrier. A PUT known to have completed but not confirmed is for review.
    method Conclude(k: nat) returns (r: Outcome)
      requires Coupled() && k < |ops| && sys.pc.Seen? && sys.pc.job == ForReconcile(k)
      modifies this`ops, this`sys
      ensures Valid() && Tables() == JudgeDb(old(Tables()), k) && world == old(world)
      ensures r == Reported(k, ops[k].state, ops[k].reason)
    {
      if ops[k].state.Prepared? {
        ops := ops[k := ops[k].(reason := "write-unresolved-ordering-blocked")];
      } else if ops[k].state.Verifying? {
        ops := ops[k := ops[k].(state := OutcomeUnknown, reason := "write-not-confirmed-review-required")];
      }
      Advance(Journal(Judge));
      return Reported(k, ops[k].state, ops[k].reason);
    }

    // Operation k is the first that has not ended, of one room or of any.
    predicate IsNext(ops: seq<Op>, filter: Option<RoomId>, k: nat) {
      && k < |ops| && !Terminal(ops[k].state) && (filter.Some? ==> ops[k].request.room == filter.value)
      && forall j: nat | j < k && !Terminal(ops[j].state) :: filter.Some? && ops[j].request.room != filter.value
    }

    method NextOperation(filter: Option<RoomId>) returns (r: Option<nat>)
      ensures r.Some? ==> IsNext(ops, filter, r.value) && Head(ops, r.value)
      ensures r.None? ==> forall k: nat :: !IsNext(ops, filter, k)
    {
      for k := 0 to |ops|
        invariant forall j: nat | j < k && !Terminal(ops[j].state) ::
                    filter.Some? && ops[j].request.room != filter.value
      {
        if !Terminal(ops[k].state) && (filter.None? || ops[k].request.room == filter.value) {
          return Some(k);
        }
      }
      return None;
    }

    // Ends a queued operation without a write.
    method Finish(k: nat, state: OpState, reason: string) returns (r: Outcome)
      requires Valid() && Head(ops, k) && ops[k].state.Queued? && (state.Canceled? || state.Rejected?)
      modifies this`ops, this`sys
      ensures Valid() && r == Reported(k, state, reason)
      ensures Tables() == SetOp(old(Tables()), k, state, reason) && world == old(world)
    {
      ops := ops[k := ops[k].(state := state, reason := reason)];
      Advance(Journal(RefuseQueued(k, state, reason)));
      return Reported(k, state, reason);
    }

    // An operation and the outside's answers that let its write begin.
    ghost predicate MayBegin(d: Db, k: nat, authorized: Option<bool>)
      requires k < |d.ops|
      reads this`authority
    {
      && d.ops[k].state.Queued?
      && d.ops[k].request.authority.localUser == authority.localUser
      && (d.ops[k].request.id.CrmOp? ==> d.ops[k].request.authority == authority)
      && authorized == Some(true) && MayWrite(d, d.ops[k])
    }

    // What becomes of a queued operation whose write does not begin.
    function Declined(d: Db, k: nat, authorized: Option<bool>): (Db, Outcome)
      requires k < |d.ops|
      reads this`authority
    {
      if !AuthorityMatches(authority, d.ops[k].request) then
        (SetOp(d, k, Canceled, "authority-changed"), Reported(k, Canceled, "authority-changed"))
      else if authorized.None? then (d, Reported(k, Queued, "authorization-unavailable"))
      else (SetOp(d, k, Rejected, "authorization-refused"), Reported(k, Rejected, "authorization-refused"))
    }

    // What a write that may begin comes to: its room must be readable, and at the revision
    // the request names, before anything is attempted.
    ghost predicate ComesTo(before: Db, was: World, k: nat, weather: Weather, r: Outcome)
      requires k < |before.ops|
      reads this
    {
      var room, w := before.ops[k].request.room, Blown(was, Gust(weather, 0));
      var seen := RemoteContent(w, room);
      var d := ObserveDb(before, room, seen);
      if !weather.readable then Tables() == before && r == Reported(k, Queued, "policy-read-failed")
      else if d.None? then Tables() == before && r == Raised("revision-exhausted")
      else if !(room in d.value.rooms && d.value.rooms[room].revision == before.ops[k].request.expected) then
        Tables() == SetOp(d.value, k, Rejected, "revision-conflict") && r == Reported(k, Rejected, "revision-conflict")
      else if before.ops[k].request.expected + 1 >= 9007199254740991 then
        Tables() == d.value && r == Raised("revision-exhausted")
      else k < |d.value.ops| && k < |ops| && AttemptComesTo(k, weather, FenceStands(d.value, w, k, weather), seen, r)
    }

    // What the attempt comes to: nothing is sent unless the fence stands; then the answer
    // decides, and after a 2xx the confirming read.
    ghost predicate AttemptComesTo(k: nat, weather: Weather, stands: bool, seen: Content, r: Outcome)
      requires k < |ops|
      reads this
    {
      if !stands then r == Reported(k, Queued, "write-retryable")
      else match AnswerTo(weather.reply, Committed(world, weather.attempt))
        case WriteRefused => r == Reported(k, Rejected, "write-refused")
        case WriteRetryable(_) => r == Reported(k, Queued, "write-retryable")
        case WriteUnknown => r == Reported(k, Prepared, "write-outcome-pending-reconciliation")
        case Written =>
          var now := RemoteContent(world, ops[k].request.room);
          if !weather.rereadable then r == Reported(k, Verifying, "reconcile-read-failed")
          else if now != seen && ops[k].intended == Some(now) then r == Reported(k, Applied, "")
          else r == Reported(k, OutcomeUnknown, "write-not-confirmed-review-required")
    }

    // What looking again at a write that was attempted before comes to.
    ghost predicate Resumes(before: Db, k: nat, readable: bool, r: Outcome)
      requires k < |before.ops|
      reads this
    {
      var n := Reconciled(before, k, RemoteContent(world, before.ops[k].request.room));
      if !readable then Tables() == before && r == Reported(k, before.ops[k].state, "reconcile-read-failed")
      else if n.None? then Tables() == before && r == Raised("revision-exhausted")
      else Tables() == n.value && k < |ops| && r == Reported(k, ops[k].state, ops[k].reason)
    }

    // At most one PUT started, and only when the database knew of every earlier one.
    ghost predicate IssuedAtMost(before: World, attempt: AttemptId)
      reads this
    {
      || world.issued == before.issued
      || (world.issued == before.issued + {attempt} && forall a <- before.issued :: a in attempts)
    }

    // Processes one queued intent, or reconciles one attempted PUT.
    method ProcessNext(filter: Option<RoomId>, weather: Weather) returns (r: Outcome)
      requires Valid()
      modifies this`rooms, this`ops, this`attempts, this`localReady, this`world, this`sys
      ensures Valid()
      ensures IssuedAtMost(old(world), weather.attempt)
      ensures r.NothingToDo? <==> forall k: nat :: !IsNext(old(ops), filter, k)
      ensures r.NothingToDo? ==> Tables() == old(Tables())
      ensures r.Reported? ==> IsNext(old(ops), filter, r.k) && r.k < |ops| && r.state == ops[r.k].state
      // A write is attempted only for an authorized operation of the current pairing; any
      // other that waits is declined.
      ensures forall k: nat | IsNext(old(ops), filter, k) ::
                && Head(old(ops), k)
                && (world.issued != old(world).issued ==> MayBegin(old(Tables()), k, weather.authorized))
                && (old(ops)[k].state.Queued? && !MayBegin(old(Tables()), k, weather.authorized) ==>
                      (Tables(), r) == Declined(old(Tables()), k, weather.authorized))
                && (MayBegin(old(Tables()), k, weather.authorized) ==>
                      ComesTo(old(Tables()), old(world), k, weather, r))
                && (!old(ops)[k].state.Queued? ==> Resumes(old(Tables()), k, weather.readable, r))
      // What is reported as applied is what was requested, and the room shows it.
      ensures r.Reported? && r.state.Applied? ==>
                ShowsRequest(r.k) && Carries(ops[r.k].request, rooms[ops[r.k].request.room].observed)
    {
      var next := NextOperation(filter);
      OneNext(ops, filter);
      if next.None? {
        return NothingToDo;
      }
      var k := next.value;
      var request := ops[k].request;
      if !ops[k].state.Queued? {
        Advance(Journal(Start(ForReconcile(k), request.room)));
        r := Reconcile(k, weather.readable, Gust(weather, 0));
        ReachableInv(sys);
        return r;
      }
      r := Begin(k, weather);
      ReachableInv(sys);
    }

    // A queued intent at the head of its line, if it is authorized.
    method Begin(k: nat, weather: Weather) returns (r: Outcome)
      requires Valid() && Head(ops, k) && ops[k].state.Queued?
      modifies this`rooms, this`ops, this`attempts, this`localReady, this`world, this`sys
      ensures Valid() && |ops| == |old(ops)| && IssuedAtMost(old(world), weather.attempt)
      ensures !r.NothingToDo? && (r.Reported? ==> r.k == k && r.state == ops[k].state)
      ensures r.Reported? && r.state.Applied? ==> ShowsRequest(k)
      ensures world.issued != old(world).issued ==> MayBegin(old(Tables()), k, weather.authorized)
      ensures !MayBegin(old(Tables()), k, weather.authorized) ==>
                (Tables(), r) == Declined(old(Tables()), k, weather.authorized)
      ensures MayBegin(old(Tables()), k, weather.authorized) ==>
                ComesTo(old(Tables()), old(world), k, weather, r)
    {
      if !AuthorityMatches(authority, ops[k].request) {
        r := Finish(k, Canceled, "authority-changed");
        return r;
      }
      if weather.authorized.None? {
        return Reported(k, Queued, "authorization-unavailable");
      }
      if !weather.authorized.value || !MayWrite(Tables(), ops[k]) {
        r := Finish(k, Rejected, "authorization-refused");
        return r;
      }
      Advance(Journal(Start(ForWrite(k), ops[k].request.room)));
      r := Execute(k, weather);
    }

    lemma OneNext(ops: seq<Op>, filter: Option<RoomId>)
      ensures forall j: nat, k: nat | IsNext(ops, filter, j) && IsNext(ops, filter, k) :: j == k
    {}

    // An authorized intent: read, compare revisions, prepare, write, settle.
    method Execute(k: nat, weather: Weather) returns (r: Outcome)
      requires Coupled() && k < |ops| && sys.pc == Ready(ForWrite(k), ops[k].request.room)
      requires AuthorityMatches(authority, ops[k].request) && ops[k].state.Queued?
      modifies this`rooms, this`ops, this`attempts, this`localReady, this`world, this`sys
      ensures Valid() && |ops| == |old(ops)| && IssuedAtMost(old(world), weather.attempt)
      ensures r.Reported? ==> r.k == k && r.state == ops[k].state
      ensures r.Reported? && r.state.Applied? ==> ShowsRequest(k)
      ensures !r.NothingToDo? && ComesTo(old(Tables()), old(world), k, weather, r)
    {
      ReachableInv(sys);
      var read := ReadAndObserve(ForWrite(k), ops[k].request.room, weather.readable, Gust(weather, 0));
      if read.Unreadable? {
        return Reported(k, ops[k].state, "policy-read-failed");
      }
      if read.Exhausted? {
        return Raised("revision-exhausted");
      }
      ObserveShape(old(Tables()), old(ops)[k].request.room, read.content);
      r := Decide(k, read.content, weather);
    }

    // The compare half of the compare-and-set.
    method Decide(k: nat, content: Content, weather: Weather) returns (r: Outcome)
      requires Coupled() && k < |ops| && ops[k].request.room in rooms
      requires sys.pc == Seen(ForWrite(k), ops[k].request.room, content)
      requires AuthorityMatches(authority, ops[k].request) && rooms[ops[k].request.room].observed == content
      modifies this`rooms, this`ops, this`attempts, this`localReady, this`world, this`sys
      ensures Valid() && |ops| == |old(ops)| && IssuedAtMost(old(world), weather.attempt)
      ensures r.Reported? ==> r.k == k && r.state == ops[k].state
      ensures r.Reported? && r.state.Applied? ==> ShowsRequest(k)
      ensures var revision, request := old(rooms[ops[k].request.room].revision), old(ops[k].request);
        if revision != request.expected then
          && r == Reported(k, Rejected, "revision-conflict") && world == old(world)
          && Tables() == SetOp(old(Tables()), k, Rejected, "revision-conflict")
        else if revision + 1 >= 9007199254740991 then Tables() == old(Tables()) && r == Raised("revision-exhausted")
        else AttemptComesTo(k, weather, FenceStands(old(Tables()), old(world), k, weather), content, r)
      ensures !r.NothingToDo?
    {
      var room := ops[k].request.room;
      if rooms[room].revision != ops[k].request.expected {
        ops := ops[k := ops[k].(state := Rejected, reason := "revision-conflict")];
        Advance(Journal(Conflict));
        return Reported(k, Rejected, "revision-conflict");
      }
      if rooms[room].revision + 1 >= MAX_REVISION {
        Advance(Journal(GiveUp));
        return Raised("revision-exhausted");
      }
      r := PrepareAndWrite(k, content, weather);
    }

    // The intent is recorded before anything is sent.
    method PrepareAndWrite(k: nat, content: Content, weather: Weather) returns (r: Outcome)
      requires Coupled() && k < |ops| && sys.pc == Seen(ForWrite(k), ops[k].request.room, content)
      requires ops[k].request.room in rooms && rooms[ops[k].request.room].observed == content
      requires JournalOk(sys, Prepare(authority)) && rooms[ops[k].request.room].revision + 1 < MAX_REVISION
      modifies this`rooms, this`ops, this`attempts, this`localReady, this`world, this`sys
      ensures Valid() && |ops| == |old(ops)| && IssuedAtMost(old(world), weather.attempt)
      ensures r.Reported? ==> r.k == k && r.state == ops[k].state
      ensures r.Reported? && r.state.Applied? ==> ShowsRequest(k)
      ensures !r.NothingToDo?
      ensures AttemptComesTo(k, weather, FenceStands(old(Tables()), old(world), k, weather), content, r)
    {
      hide FenceStands, Settles, Reachable, Committed, Reconciled, JournalOk, SetOp, PolicyJournal.Requeue, HeadOfLine,
           ShowsRequest, AnswerTo, Intended;
      var outcome := Send(k, content, weather);
      ghost var sent := Tables();
      assert sent.ops[k].state.Prepared? && sent.rooms[sent.ops[k].request.room].observed == content;
      r := Settle(k, outcome, weather);
      if outcome.Written? && weather.rereadable {
        PreparedEnds(sent, k, RemoteContent(world, sent.ops[k].request.room));
      }
    }

    // The recorded intent is sent, if the fence stands.
    method Send(k: nat, content: Content, weather: Weather) returns (outcome: WriteOutcome)
      requires Coupled() && k < |ops| && sys.pc == Seen(ForWrite(k), ops[k].request.room, content)
      requires JournalOk(sys, Prepare(authority))
      modifies this`ops, this`attempts, this`localReady, this`world, this`sys
      ensures Coupled() && Settles(k, outcome, weather.attempt) && IssuedAtMost(old(world), weather.attempt)
      ensures Tables() == PrepareDb(old(Tables()), k, content, authority).(attempts := attempts) && HeadOfLine(Tables())
      ensures BeforeThePut(outcome) <==> !FenceStands(old(Tables()), old(world), k, weather)
      ensures !BeforeThePut(outcome) ==> outcome == AnswerTo(weather.reply, Committed(world, weather.attempt))
    {
      hide Blown, MarkersMatch, FenceStands, SendsRequest, Settles, Reachable, Committed, JournalOk, AnswerTo;
      Record(k, content);
      FenceOfSameOps(old(Tables()), Tables(), world, k, weather);
      outcome := WriteOverride(k, weather);
      ReachableLine(sys);
    }

    method Record(k: nat, content: Content)
      requires Coupled() && k < |ops| && sys.pc == Seen(ForWrite(k), ops[k].request.room, content)
      requires JournalOk(sys, Prepare(authority))
      modifies this`ops, this`sys
      ensures Coupled() && sys.pc == Writing(k) && HeadOfLine(Tables())
      ensures old(ops[k].request.room in rooms) && Tables() == PrepareDb(old(Tables()), k, content, authority)
    {
      var revision := rooms[ops[k].request.room].revision + 1;
      ops := ops[k := ops[k].(state := Prepared, intended := Some(Intended(ops[k], revision, authority)),
                             resulting := Some(revision), previous := Some(content))];
      Advance(Journal(Prepare(authority)));
      ReachableLine(sys);
    }

    lemma ReachableLine(s: Sys)
      requires Reachable(s)
      ensures HeadOfLine(s.db)
    {
      ReachableInv(s);
    }

    lemma PreparedEnds(d: Db, k: nat, content: Content)
      requires HeadOfLine(d) && k < |d.ops| && d.ops[k].state.Prepared? && d.ops[k].request.room in d.rooms
      requires var op, row := d.ops[k], d.rooms[d.ops[k].request.room];
        && op.resulting == Some(row.revision + 1) && op.previous == Some(row.observed)
        && row.revision + 1 < MAX_REVISION
      ensures var op, n := d.ops[k], Reconciled(SetOp(d, k, Verifying, d.ops[k].reason), k, content);
        && n.Some? && k < |n.value.ops|
        && n.value.ops[k].request == op.request && n.value.ops[k].intended == op.intended
        && var ended := content != d.rooms[op.request.room].observed && op.intended == Some(content);
        && n.value.ops[k].state == (if ended then Applied else OutcomeUnknown)
        && n.value.ops[k].reason == (if ended then "" else "write-not-confirmed-review-required")
    {
      VerifyingKeepsLine(d, k);
      AcceptedEnds(SetOp(d, k, Verifying, d.ops[k].reason), k, content);
      hide Reconciled, HeadOfLine;
    }

    lemma VerifyingKeepsLine(d: Db, k: nat)
      requires HeadOfLine(d) && k < |d.ops| && InWrite(d.ops[k].state)
      ensures HeadOfLine(SetOp(d, k, Verifying, d.ops[k].reason))
    {
      var n := SetOp(d, k, Verifying, d.ops[k].reason);
      forall i: nat, j: nat | i < j < |n.ops| && SameRoom(n, i, j) && Attempted(n.ops[j].state)
        ensures Terminal(n.ops[i].state)
      {
        assert SameRoom(d, i, j);
      }
    }

    lemma FenceOfSameOps(d: Db, n: Db, w: World, k: nat, weather: Weather)
      requires |d.ops| == |n.ops| && k < |d.ops| && d.attempts == n.attempts
      requires forall j: nat | j < |d.ops| :: d.ops[j].request == n.ops[j].request
      ensures FenceStands(d, w, k, weather) <==> FenceStands(n, w, k, weather)
    {
      var now := Blown(w, Gust(weather, 1));
      forall a <- d.attempts
        ensures (exists op <- d.ops :: op.request.id == d.attempts[a].op)
                <==> exists op <- n.ops :: op.request.id == d.attempts[a].op
      {
        if op :| op in d.ops && op.request.id == d.attempts[a].op {
          var j :| 0 <= j < |d.ops| && d.ops[j] == op;
          assert n.ops[j] in n.ops;
        }
        if op :| op in n.ops && op.request.id == d.attempts[a].op {
          var j :| 0 <= j < |n.ops| && n.ops[j] == op;
          assert d.ops[j] in d.ops;
        }
      }
      assert MarkersMatch(d.attempts, d.ops, now) <==> MarkersMatch(n.attempts, n.ops, now);
      hide Blown, MarkersMatch;
    }

    // Nothing was applied: the intent waits for fresh authorization and a fresh read.
    method Requeue(k: nat, sent: bool, attempt: AttemptId)
      requires Coupled() && k < |ops| && Settles(k, WriteRetryable(sent), attempt)
      modifies this`ops, this`world, this`sys
      ensures Valid() && world.issued == old(world).issued && world.committed == old(world).committed
      ensures Tables() == PolicyJournal.Requeue(old(Tables()), k)
    {
      ops := ops[k := ops[k].(state := Queued, reason := "write-retryable",
                             intended := None, resulting := None, previous := None)];
      if sent {
        world := Withdraw(world, attempt);
        Advance(Fence(AnswerRetry));
      } else {
        Advance(Fence(FenceFails));
      }
    }

    // Records what the transport said of the write.
    method Settle(k: nat, outcome: WriteOutcome, weather: Weather) returns (r: Outcome)
      requires Coupled() && k < |ops| && Settles(k, outcome, weather.attempt)
      modifies this`rooms, this`ops, this`world, this`sys
      ensures Valid() && |ops| == |old(ops)| && world.issued == old(world).issued
      ensures r.Reported? ==> r.k == k && r.state == ops[k].state
      ensures outcome.WriteUnknown? ==> Tables() == old(Tables())
      ensures r.Reported? && r.state.Applied? && !Terminal(old(ops)[k].state) ==> ShowsRequest(k)
      ensures outcome.WriteRefused? ==> Tables() == SetOp(old(Tables()), k, Rejected, "write-refused")
      ensures outcome.WriteRetryable? ==> Tables() == PolicyJournal.Requeue(old(Tables()), k)
      // An accepted answer is on record before the confirming read, and that read settles it.
      ensures outcome.Written? ==>
                var accepted := SetOp(old(Tables()), k, Verifying, old(ops)[k].reason);
                var n := Reconciled(accepted, k, RemoteContent(world, old(ops)[k].request.room));
                Tables() == if weather.rereadable && n.Some? then n.value else accepted
      ensures Committed(world, weather.attempt) == Committed(old(world), weather.attempt)
      ensures match outcome
        case WriteRefused => r == Reported(k, Rejected, "write-refused")
        case WriteRetryable(_) => r == Reported(k, Queued, "write-retryable")
        case WriteUnknown => r == Reported(k, old(ops)[k].state, "write-outcome-pending-reconciliation")
        case Written =>
          var accepted := SetOp(old(Tables()), k, Verifying, old(ops)[k].reason);
          if !weather.rereadable then r == Reported(k, Verifying, "reconcile-read-failed")
          else if Reconciled(accepted, k, RemoteContent(world, old(ops)[k].request.room)).None? then
            r == Raised("revision-exhausted")
          else r == Reported(k, ops[k].state, ops[k].reason)
      ensures !r.NothingToDo?
    {
      match outcome {
        case WriteRefused =>
          ops := ops[k := ops[k].(state := Rejected, reason := "write-refused")];
          world := Withdraw(world, weather.attempt);
          Advance(Fence(AnswerRefused));
          return Reported(k, Rejected, "write-refused");
        case WriteRetryable(sent) =>
          Requeue(k, sent, weather.attempt);
          return Reported(k, Queued, "write-retryable");
        case WriteUnknown =>
          Advance(Fence(AnswerLost));
          return Reported(k, ops[k].state, "write-outcome-pending-reconciliation");
        case Written =>
          ops := ops[k := ops[k].(state := Verifying)];
          assert Tables() == SetOp(old(Tables()), k, Verifying, old(ops)[k].reason);
          Advance(Fence(AnswerAccepted));
          r := Reconcile(k, weather.rereadable, Gust(weather, 4));
          return r;
      }
    }
  }
}

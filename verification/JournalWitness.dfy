/** A run of the journal in which everything goes well: the theorems are not about nothing. */
module JournalWitness {
  import opened Wrappers
  import opened PolicyJournal
  import opened JournalInvariants

  // One room, at the given revision, and no policy request to it so far.
  predicate Quiet(s: Sys, room: RoomId, revision: nat) {
    && s.pc.Idle?
    && s.db.rooms.Keys == {room} && s.db.rooms[room].revision == revision && s.db.rooms[room].observed.Foreign?
    && s.db.ops == [] && s.db.attempts == map[] && s.db.children == map[]
    && s.world == EMPTY_WORLD.(remote := map[room := s.db.rooms[room].observed])
  }

  lemma Step(s: Sys, a: Action) returns (n: Sys)
    requires Reachable(s) && Enabled(s, a)
    ensures n == Apply(s, a) && Reachable(n)
  {
    ReachableStep(s, a);
    n := Apply(s, a);
  }

  // Another client writes the room, and the journal reads it.
  lemma WrittenAndSeen(s: Sys, room: RoomId, text: string) returns (n: Sys)
    requires Reachable(s) && s.pc.Idle?
    requires ObserveDb(s.db, room, Foreign(text)).Some?
    ensures Reachable(n) && n.pc.Idle? && n.db == ObserveDb(s.db, room, Foreign(text)).value
    ensures n.world == s.world.(remote := s.world.remote[room := Foreign(text)])
  {
    n := Step(s, Server(ExternalWrite(room, Foreign(text))));
    n := Step(n, Journal(JournalAction.Start(ForInspect, room)));
    n := Step(n, Journal(Fetch));
    n := Step(n, Journal(Observe));
    n := Step(n, Journal(GiveUp));
  }

  lemma {:induction false} RoomSeen(room: RoomId, revision: nat) returns (s: Sys)
    requires revision < MAX_REVISION
    ensures Reachable(s) && Quiet(s, room, revision) && s.db.commands == map[]
    decreases revision
  {
    if revision == 0 {
      assert Legal(INITIAL, []) && Exec(INITIAL, []) == INITIAL;
      s := WrittenAndSeen(INITIAL, room, "");
    } else {
      s := RoomSeen(room, revision - 1);
      var text := s.db.rooms[room].observed.text;
      assert |text + "x"| != |text|;
      s := WrittenAndSeen(s, room, text + "x");
    }
  }

  predicate WellAddressed(request: Request) {
    request.id.CrmOp? ==> request.id.room == request.room && request.level.Direct?
  }

  // A request by a command needs that command to be committing a ticket with the room.
  lemma CommandCommits(request: Request) returns (s: Sys)
    requires request.expected < MAX_REVISION && WellAddressed(request)
    ensures Reachable(s) && Quiet(s, request.room, request.expected) && JournalOk(s, Submit(request))
  {
    s := RoomSeen(request.room, request.expected);
    if request.id.CrmOp? {
      var ticket := map[request.room := request.expected];
      var row := Command(PreparedTicket, [request.room], ticket, request.binding, request.membership, false);
      s := Step(s, Commands(PutCommand(request.id.command, row)));
      s := Step(s, Commands(BeginCommit(request.id.command)));
    }
  }

  // The request is all the journal has to do, and the room is as it was last seen.
  predicate Stage(s: Sys, request: Request) {
    && |s.db.ops| == 1 && s.db.ops[0].request == request
    && request.room in s.db.rooms && s.db.rooms[request.room].revision == request.expected
    && s.db.rooms[request.room].observed.Foreign?
    && s.world.committed == [] && s.world.flying == {}
  }

  predicate Untouched(s: Sys, request: Request) {
    && Stage(s, request) && s.db.attempts == map[] && s.world.markers == {} && s.world.used == {}
    && RemoteContent(s.world, request.room) == s.db.rooms[request.room].observed
  }

  lemma RequestWaits(request: Request) returns (s: Sys)
    requires request.expected < MAX_REVISION && WellAddressed(request)
    ensures Reachable(s) && s.pc.Idle? && Untouched(s, request)
    ensures s.db.ops[0].state.Queued? && MayWrite(s.db, s.db.ops[0])
  {
    s := CommandCommits(request);
    s := Step(s, Journal(Submit(request)));
    if request.id.CrmOp? {
      s := Step(s, Commands(LinkChild(request.id)));
    }
  }

  // What a prepared operation still has to see confirmed.
  predicate Aimed(s: Sys, request: Request) {
    && Stage(s, request) && s.db.ops[0].intended == Some(Intended(s.db.ops[0], request.expected + 1, request.authority))
    && Uninterrupted(s.db.ops[0], s.db.rooms[request.room])
  }

  lemma RoomRead(request: Request) returns (s: Sys)
    requires request.expected < MAX_REVISION && WellAddressed(request)
    ensures Reachable(s) && Untouched(s, request)
    ensures s.pc == Seen(ForWrite(0), request.room, s.db.rooms[request.room].observed)
  {
    s := RequestWaits(request);
    s := Step(s, Journal(JournalAction.Start(ForWrite(0), request.room)));
    s := Step(s, Journal(Fetch));
    s := Step(s, Journal(Observe));
  }

  lemma RequestPrepared(request: Request) returns (s: Sys)
    requires request.expected + 1 < MAX_REVISION && WellAddressed(request)
    ensures Reachable(s) && s.pc == Writing(0) && Untouched(s, request) && Aimed(s, request)
  {
    s := RoomRead(request);
    s := Step(s, Journal(Prepare(request.authority)));
  }

  lemma RequestFenced(request: Request) returns (s: Sys)
    requires request.expected + 1 < MAX_REVISION && WellAddressed(request)
    ensures Reachable(s) && s.pc == Fenced(0, 0) && Aimed(s, request)
  {
    s := RequestPrepared(request);
    s := Step(s, Fence(VerifyFence));
    s := Step(s, Fence(OpenAttempt(0)));
    s := Step(s, Fence(SendMarker));
    s := Step(s, Server(MarkerLands(Marker(0, 0, request.id))));
    s := Step(s, Fence(ConfirmMarker));
  }

  lemma RequestLanded(request: Request) returns (s: Sys)
    requires request.expected + 1 < MAX_REVISION && WellAddressed(request)
    ensures Reachable(s) && s.pc == Ready(ForReconcile(0), request.room)
    ensures |s.db.ops| == 1 && s.db.ops[0].request == request && s.db.ops[0].state.Verifying?
    ensures request.room in s.db.rooms && s.db.rooms[request.room].revision == request.expected
    ensures s.db.rooms[request.room].observed.Foreign? && Uninterrupted(s.db.ops[0], s.db.rooms[request.room])
    ensures s.db.ops[0].intended == Some(RemoteContent(s.world, request.room))
    ensures RemoteContent(s.world, request.room).Marked?
  {
    s := RequestFenced(request);
    var put := Attempting(s, 0, 0);
    s := Step(s, Fence(IssuePut));
    s := Step(s, Server(PutLands(put)));
    assert s.world.committed[0].attempt == 0;
    s := Step(s, Fence(AnswerAccepted));
  }

  // Any request about the revision last seen can come to be applied, short of exhaustion.
  lemma RequestCanBeApplied(request: Request) returns (s: Sys)
    requires request.expected + 1 < MAX_REVISION && WellAddressed(request)
    ensures Reachable(s) && |s.db.ops| == 1 && s.db.ops[0].request == request && s.db.ops[0].state.Applied?
    ensures request.room in s.db.rooms && s.db.rooms[request.room].revision == request.expected + 1
  {
    s := RequestLanded(request);
    s := Step(s, Journal(Fetch));
    s := Step(s, Journal(Observe));
  }

  // ------------------------------------------------------------------ a marker that comes late

  lemma ReadAgain(s: Sys, request: Request) returns (n: Sys)
    requires Reachable(s) && s.pc.Idle? && Stage(s, request)
    requires s.db.ops[0].state.Queued? && MayWrite(s.db, s.db.ops[0])
    requires RemoteContent(s.world, request.room) == s.db.rooms[request.room].observed
    ensures Reachable(n) && n.pc == Seen(ForWrite(0), request.room, s.db.rooms[request.room].observed)
    ensures n.db == s.db && n.world == s.world && s.saved <= n.saved
  {
    n := Step(s, Journal(JournalAction.Start(ForWrite(0), request.room)));
    n := Step(n, Journal(Fetch));
    n := Step(n, Journal(Observe));
  }

  lemma PreparedAgain(s: Sys, request: Request) returns (n: Sys)
    requires request.expected + 1 < MAX_REVISION
    requires Reachable(s) && s.pc.Idle? && Stage(s, request) && s.db.attempts == map[]
    requires s.db.ops[0].state.Queued? && MayWrite(s.db, s.db.ops[0])
    requires RemoteContent(s.world, request.room) == s.db.rooms[request.room].observed
    ensures Reachable(n) && n.pc == Writing(0) && n.world == s.world && s.saved <= n.saved
    ensures |n.db.ops| == 1 && n.db.ops[0].request == request && n.db.ops[0].intended.Some? && n.db.attempts == map[]
  {
    n := ReadAgain(s, request);
    n := Step(n, Journal(Prepare(request.authority)));
  }

  // From the restore point to the marker under way.
  lemma MarkerUnderWay(s: Sys, request: Request, attempt: AttemptId) returns (n: Sys)
    requires request.expected + 1 < MAX_REVISION
    requires Reachable(s) && s.pc.Idle? && Stage(s, request) && s.db.attempts == map[] && s.world.markers == {}
    requires s.db.ops[0].state.Queued? && MayWrite(s.db, s.db.ops[0]) && attempt !in s.world.used
    requires RemoteContent(s.world, request.room) == s.db.rooms[request.room].observed
    ensures Reachable(n) && n.pc == MarkerSent(0, attempt) && s.saved <= n.saved
    ensures |n.db.ops| == 1 && n.db.ops[0].intended.Some?
    ensures n.db.attempts == map[attempt := Attempt(0, request.id, false)]
    ensures n.world == s.world.(used := s.world.used + {attempt},
                                markersFlying := s.world.markersFlying + {Marker(attempt, 0, request.id)})
  {
    n := PreparedAgain(s, request);
    n := Step(n, Fence(VerifyFence));
    n := Step(n, Fence(OpenAttempt(attempt)));
    n := Step(n, Fence(SendMarker));
  }

  // The marker of an attempt that a restore has forgotten lands behind the next check: the
  // PUT that starts then has a marker beside its own.
  lemma StrayMarker(request: Request) returns (s: Sys)
    requires request.expected + 1 < MAX_REVISION && WellAddressed(request)
    ensures Reachable(s) && FenceOk(s, IssuePut)
    ensures Marker(0, 0, request.id) in s.world.markers && 0 !in s.db.attempts
  {
    var start := RequestWaits(request);
    ReachableInv(start);
    s := MarkerUnderWay(start, request, 0);
    s := Step(s, Restore(start.db));
    s := MarkerUnderWay(s, request, 1);
    s := Step(s, Server(MarkerLands(Marker(0, 0, request.id))));
    s := Step(s, Server(MarkerLands(Marker(1, 0, request.id))));
    s := Step(s, Fence(ConfirmMarker));
  }
}

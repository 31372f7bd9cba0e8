/**
 What every step keeps: the tables of each database that ever existed, the server's view
 of the policy writes, and the link between the two that the restore fence maintains.
 */
module JournalInvariants {
  import opened Wrappers
  import opened PolicyJournal

  // ------------------------------------------------------------------ the tables

  predicate SameRoom(d: Db, j: nat, k: nat)
    requires j < |d.ops| && k < |d.ops|
  {
    d.ops[j].request.room == d.ops[k].request.room
  }

  // Writes of a room are attempted in sequence order, each after its predecessors ended.
  ghost predicate HeadOfLine(d: Db) {
    forall j: nat, k: nat | j < k < |d.ops| ::
      SameRoom(d, j, k) && Attempted(d.ops[k].state) ==> Terminal(d.ops[j].state)
  }

  ghost predicate UniqueIds(d: Db) {
    forall j: nat, k: nat | j < k < |d.ops| :: d.ops[j].request.id != d.ops[k].request.id
  }

  // What is stored for a request: its own marker, one revision above the one it expects, at
  // the level it asks for; a grant's under the authority it was made by.
  ghost predicate Carries(request: Request, content: Content) {
    && content.Marked? && content.op == request.id
    && content.revision == request.expected + 1 && content.level == request.level
    && (request.id.CrmOp? ==>
          content.owner == request.authority.owner && content.generation == request.authority.generation)
  }

  // A write aims one revision above the one its request expects, and never above the
  // revision that follows what the journal has observed. It carries what was requested.
  ghost predicate Aims(d: Db) {
    forall k: nat | k < |d.ops| ::
      var op := d.ops[k];
      && op.request.room in d.rooms
      && (Attempted(op.state) ==>
           op.intended.Some? && Carries(op.request, op.intended.value) && op.request.expected + 1 < MAX_REVISION)
      && (InWrite(op.state) ==>
           && op.resulting == Some(op.request.expected + 1)
           && op.request.expected <= d.rooms[op.request.room].revision)
      && (op.state.Applied? ==>
           && op.resulting == Some(op.request.expected + 1)
           && op.request.expected < d.rooms[op.request.room].revision)
  }

  ghost predicate Increasing(d: Db) {
    forall j: nat, k: nat | j < k < |d.ops| ::
      SameRoom(d, j, k) && d.ops[j].state.Applied? && (InWrite(d.ops[k].state) || d.ops[k].state.Applied?)
      ==> d.ops[j].request.expected < d.ops[k].request.expected
  }

  ghost predicate TablesInv(d: Db) {
    HeadOfLine(d) && UniqueIds(d) && Aims(d) && Increasing(d)
  }

  // Ending an operation, or moving an attempted one on, keeps the tables in order.
  lemma SetOpKeeps(d: Db, k: nat, state: OpState, reason: string)
    requires TablesInv(d) && k < |d.ops|
    requires state.Canceled? || state.Rejected? || state.OutcomeUnknown? || state == d.ops[k].state
             || (state.Verifying? && d.ops[k].state.Prepared?)
    requires state.OutcomeUnknown? ==> InWrite(d.ops[k].state)
    ensures TablesInv(SetOp(d, k, state, reason))
  {
    var n := SetOp(d, k, state, reason);
    forall i: nat, j: nat | i < j < |n.ops|
      ensures SameRoom(n, i, j) ==> SameRoom(d, i, j)
    {}
  }

  lemma RequeueKeeps(d: Db, k: nat)
    requires TablesInv(d) && k < |d.ops| && InWrite(d.ops[k].state)
    ensures TablesInv(Requeue(d, k))
  {
    var n := Requeue(d, k);
    forall i: nat, j: nat | i < j < |n.ops|
      ensures SameRoom(n, i, j) ==> SameRoom(d, i, j)
    {}
  }

  lemma SubmitKeeps(d: Db, request: Request)
    requires TablesInv(d) && request.room in d.rooms && FindOp(d.ops, request.id).None?
    ensures TablesInv(d.(ops := d.ops + [Op(request, Queued, "", None, None, None)]))
  {
    var n := d.(ops := d.ops + [Op(request, Queued, "", None, None, None)]);
    forall i: nat, j: nat | i < j < |n.ops|
      ensures j < |d.ops| && SameRoom(n, i, j) ==> SameRoom(d, i, j)
    {}
  }

  lemma MoveRoomKeeps(d: Db, room: RoomId, row: Room)
    requires TablesInv(d) && (room in d.rooms ==> d.rooms[room].revision <= row.revision)
    ensures TablesInv(d.(rooms := d.rooms[room := row]))
  {
    var n := d.(rooms := d.rooms[room := row]);
    forall i: nat, j: nat | i < j < |n.ops|
      ensures SameRoom(n, i, j) ==> SameRoom(d, i, j)
    {}
  }

  // A confirmed write of an uninterrupted room takes it to the revision it aimed at.
  lemma ApplyKeeps(d: Db, room: RoomId, content: Content, k: nat)
    requires TablesInv(d) && k < |d.ops| && d.ops[k].request.room == room && InWrite(d.ops[k].state)
    requires Uninterrupted(d.ops[k], d.rooms[room])
    ensures TablesInv(SetOp(d.(rooms := d.rooms[room := Room(d.rooms[room].revision + 1, content)]), k, Applied, ""))
  {
    var m := d.(rooms := d.rooms[room := Room(d.rooms[room].revision + 1, content)]);
    MoveRoomKeeps(d, room, Room(d.rooms[room].revision + 1, content));
    var n := SetOp(m, k, Applied, "");
    forall i: nat, j: nat | i < j < |n.ops|
      ensures SameRoom(n, i, j) ==> SameRoom(m, i, j)
      ensures SameRoom(n, i, j) && n.ops[i].state.Applied? && (InWrite(n.ops[j].state) || n.ops[j].state.Applied?)
              ==> n.ops[i].request.expected < n.ops[j].request.expected
    {
      if i == k && SameRoom(n, i, j) {
        assert SameRoom(m, k, j);
        assert !Attempted(m.ops[j].state);
      }
    }
  }

  lemma ObserveKeeps(d: Db, room: RoomId, content: Content)
    requires TablesInv(d) && ObserveDb(d, room, content).Some?
    ensures TablesInv(ObserveDb(d, room, content).value)
  {
    if room !in d.rooms {
      MoveRoomKeeps(d, room, Room(0, content));
    } else if content != d.rooms[room].observed {
      var row := Room(d.rooms[room].revision + 1, content);
      MoveRoomKeeps(d, room, row);
      if Settled(d, room, content) {
        var k := FirstInWrite(d.ops, room).value;
        if Uninterrupted(d.ops[k], d.rooms[room]) {
          ApplyKeeps(d, room, content, k);
        } else {
          SetOpKeeps(d.(rooms := d.rooms[room := row]), k, OutcomeUnknown, "superseded-write-confirmed");
        }
      }
    }
  }

  // A room has one write in progress at most.
  lemma OnlyWrite(d: Db, k: nat)
    requires HeadOfLine(d) && k < |d.ops| && InWrite(d.ops[k].state)
    ensures FirstInWrite(d.ops, d.ops[k].request.room) == Some(k)
  {
    var first := FirstInWrite(d.ops, d.ops[k].request.room);
    assert SameRoom(d, first.value, k);
  }

  // The observation is the marker of operation k, and news.
  predicate Shown(d: Db, k: nat, content: Content)
    requires k < |d.ops| && d.ops[k].request.room in d.rooms
  {
    content != d.rooms[d.ops[k].request.room].observed && d.ops[k].intended == Some(content)
  }

  lemma ObservedAt(d: Db, k: nat, content: Content)
    requires k < |d.ops| && FirstInWrite(d.ops, d.ops[k].request.room) == Some(k) && d.ops[k].request.room in d.rooms
    requires ObserveDb(d, d.ops[k].request.room, content).Some?
    ensures ObserveDb(d, d.ops[k].request.room, content).value.ops
            == if Shown(d, k, content) then d.ops[k := SettledOp(d.ops[k], d.rooms[d.ops[k].request.room])] else d.ops
  {
    hide FirstInWrite;
  }

  // A reconciling read leaves every other operation alone. It ends the write if it shows the
  // operation's own marker, or if that write is known to have completed; else it stays.
  lemma ReconcileEnds(d: Db, k: nat, content: Content)
    requires TablesInv(d) && k < |d.ops| && InWrite(d.ops[k].state) && d.ops[k].request.room in d.rooms
    requires Reconciled(d, k, content).Some?
    ensures var op, n, room := d.ops[k], Reconciled(d, k, content).value, d.rooms[d.ops[k].request.room];
      && |n.ops| == |d.ops| && n.ops[k].request == op.request
      && (forall j: nat | j < |d.ops| && j != k :: n.ops[j] == d.ops[j])
      && (n.ops[k].state.Applied? <==> Shown(d, k, content) && Uninterrupted(op, room))
      && (n.ops[k].state.OutcomeUnknown? <==>
            if Shown(d, k, content) then !Uninterrupted(op, room) else op.state.Verifying?)
      && (n.ops[k].state.Prepared? <==> !Shown(d, k, content) && op.state.Prepared?)
  {
    OnlyWrite(d, k);
    hide TablesInv, FirstInWrite, ObserveDb, Shown, Uninterrupted;
    ObservedAt(d, k, content);
  }

  // What a reconciling read ended shows its content, unless it had completed before.
  lemma ReconciledShows(d: Db, k: nat, content: Content)
    requires TablesInv(d) && k < |d.ops| && InWrite(d.ops[k].state) && d.ops[k].request.room in d.rooms
    requires Reconciled(d, k, content).Some?
    ensures var op, n, room := d.ops[k], Reconciled(d, k, content).value, d.ops[k].request.room;
      && |n.ops| == |d.ops| && n.ops[k].request == op.request && room in n.rooms && n.rooms[room].observed == content
      && (Terminal(n.ops[k].state) ==>
            op.intended == Some(content) || (op.state.Verifying? && n.ops[k].state.OutcomeUnknown?))
      && (n.ops[k].state.Applied? ==> n.ops[k].intended == Some(content))
  {
    hide ObserveDb, FirstInWrite, TablesInv, Uninterrupted;
    ReconcileEnds(d, k, content);
    ObserveShape(d, d.ops[k].request.room, content);
  }

  lemma PrepareKeeps(d: Db, k: nat, content: Content, under: Authority)
    requires TablesInv(d) && Head(d.ops, k) && AuthorityMatches(under, d.ops[k].request)
    requires d.rooms[d.ops[k].request.room].revision == d.ops[k].request.expected
    requires d.ops[k].request.expected + 1 < MAX_REVISION
    ensures TablesInv(PrepareDb(d, k, content, under))
  {
    var n := PrepareDb(d, k, content, under);
    forall i: nat, j: nat | i < j < |n.ops|
      ensures SameRoom(n, i, j) ==> SameRoom(d, i, j)
    {}
  }

  lemma JudgeKeeps(d: Db, k: nat)
    requires TablesInv(d) && k < |d.ops|
    ensures TablesInv(JudgeDb(d, k))
  {
    if d.ops[k].state.Prepared? {
      SetOpKeeps(d, k, Prepared, "write-unresolved-ordering-blocked");
    } else if d.ops[k].state.Verifying? {
      SetOpKeeps(d, k, OutcomeUnknown, "write-not-confirmed-review-required");
    }
  }

  // Tables other than rooms and ops do not matter to the order of writes.
  lemma OtherTablesKeep(d: Db, n: Db)
    requires TablesInv(d) && n.rooms == d.rooms && n.ops == d.ops
    ensures TablesInv(n)
  {
    forall i: nat, j: nat | i < j < |n.ops|
      ensures SameRoom(n, i, j) == SameRoom(d, i, j)
    {}
  }

  // ------------------------------------------------------------------ the server's side

  // A PUT that was made, or may still be.
  predicate Alive(w: World, p: Put) {
    p in w.flying || p in w.committed
  }

  ghost predicate WritesInv(w: World) {
    && (forall p, q | p in w.flying && q in w.flying && p.room == q.room :: p == q)
    && (forall p, q | Alive(w, p) && Alive(w, q) && p.op == q.op :: p == q)
    && (forall p | p in w.flying :: p !in w.committed)
    && (forall i: nat, j: nat | i < j < |w.committed| ::
          && w.committed[i].op != w.committed[j].op
          && (w.committed[i].room == w.committed[j].room ==> w.committed[i].sequence < w.committed[j].sequence))
    && (forall p, q | p in w.flying && q in w.committed && p.room == q.room :: q.sequence < p.sequence)
    && (forall p | Alive(w, p) :: p.attempt in w.issued && p.content.Marked? && p.content.op == p.op)
  }

  ghost predicate ServerInv(w: World) {
    && w.issued <= w.used
    && (forall room <- w.remote :: w.remote[room].Marked? ==> EverCommitted(w, w.remote[room]))
    && (forall a <- w.issued :: exists m <- w.markers :: m.attempt == a)
  }

  // ------------------------------------------------------------------ database and server

  // A database that knows of an attempt shows its operation as in write for as long as
  // the attempt's PUT may commit, and as attempted once it has.
  ghost predicate Tracks(d: Db, w: World) {
    && (forall a <- d.attempts :: a in w.used)
    && (forall p | Alive(w, p) && p.attempt in d.attempts ::
          && p.sequence < |d.ops|
          && d.ops[p.sequence].request.id == p.op
          && d.ops[p.sequence].request.room == p.room
          && Attempted(d.ops[p.sequence].state)
          && (p in w.flying ==> d.ops[p.sequence].state.Prepared?)
          && (InWrite(d.ops[p.sequence].state) ==> d.ops[p.sequence].intended == Some(p.content)))
  }

  predicate InFence(pc: Pc) {
    pc.Fencing? || pc.MarkerSent? || pc.Fenced? || pc.Sent?
  }

  predicate Engaged(pc: Pc) {
    pc.Writing? || pc.Verified? || InFence(pc)
  }

  // The restore points that already hold the attempt under way hold its operation too,
  // exactly as the writer is about to send it.
  ghost predicate Foresees(d: Db, s: Sys) {
    InFence(s.pc) && s.pc.attempt in d.attempts && s.pc.k < |s.db.ops| ==>
      s.pc.k < |d.ops| && d.ops[s.pc.k] == s.db.ops[s.pc.k]
  }

  ghost predicate JobInv(s: Sys) {
    && (s.pc.Holding? && s.pc.content.Marked? ==> EverCommitted(s.world, s.pc.content))
    && ((s.pc.Ready? || s.pc.Holding? || s.pc.Seen?) && s.pc.job.ForWrite? ==>
          && Head(s.db.ops, s.pc.job.k) && s.db.ops[s.pc.job.k].state.Queued?
          && s.db.ops[s.pc.job.k].request.room == s.pc.room)
  }

  // No PUT this database knows of is alive for the operation being written, nor still
  // flying in its room.
  ghost predicate Alone(s: Sys, k: nat, except: set<AttemptId>)
    requires k < |s.db.ops|
  {
    forall p | Alive(s.world, p) && p.attempt in s.db.attempts && p.attempt !in except ::
      && p.op != s.db.ops[k].request.id
      && (p.room == s.db.ops[k].request.room ==> p !in s.world.flying && p.sequence < k)
  }

  ghost predicate WriterInv(s: Sys) {
    Engaged(s.pc) ==>
      && s.pc.k < |s.db.ops| && s.db.ops[s.pc.k].state.Prepared?
      && Alone(s, s.pc.k, if s.pc.Sent? then {s.pc.attempt} else {})
      && (InFence(s.pc) ==> s.pc.attempt in s.db.attempts)
      && ((s.pc.Fencing? || s.pc.MarkerSent? || s.pc.Fenced?) ==> s.pc.attempt !in s.world.issued)
      && (s.pc.Fenced? ==> exists m <- s.world.markers :: m.attempt == s.pc.attempt)
      && (!s.pc.Writing? ==> forall a <- s.world.issued :: a in s.db.attempts)
      && (s.pc.Sent? ==> forall p | Alive(s.world, p) && p.attempt == s.pc.attempt ::
            p.op == s.db.ops[s.pc.k].request.id && p.sequence == s.pc.k)
  }

  ghost predicate Inv(s: Sys) {
    && s.db in s.saved
    && (forall d <- s.saved :: TablesInv(d) && Tracks(d, s.world) && Foresees(d, s))
    && WritesInv(s.world) && ServerInv(s.world)
    && JobInv(s) && WriterInv(s)
  }

  lemma InitialInv()
    ensures Inv(INITIAL)
  {}

  // ------------------------------------------------------------------ tables, step by step

  lemma JournalTables(s: Sys, j: JournalAction)
    requires TablesInv(s.db) && JobInv(s) && JournalOk(s, j)
    ensures TablesInv(JournalDb(s, j))
  {
    var d := s.db;
    match j
    case Submit(request) => SubmitKeeps(d, request);
    case CancelQueued(k) => SetOpKeeps(d, k, Canceled, "membership-intent-canceled");
    case RefuseQueued(k, state, reason) => SetOpKeeps(d, k, state, reason);
    case Observe => ObserveKeeps(d, s.pc.room, s.pc.content);
    case Conflict => SetOpKeeps(d, s.pc.job.k, Rejected, "revision-conflict");
    case Prepare(under) => PrepareKeeps(d, s.pc.job.k, s.pc.content, under);
    case Judge => JudgeKeeps(d, s.pc.job.k);
    case _ =>
  }

  lemma FenceTables(s: Sys, f: FenceAction)
    requires TablesInv(s.db) && WriterInv(s) && FenceOk(s, f)
    ensures TablesInv(FenceDb(s, f))
  {
    var d := s.db;
    match f
    case FenceFails => RequeueKeeps(d, s.pc.k);
    case AnswerAccepted => SetOpKeeps(d, s.pc.k, Verifying, d.ops[s.pc.k].reason);
    case AnswerRefused => SetOpKeeps(d, s.pc.k, Rejected, "write-refused");
    case AnswerRetry => RequeueKeeps(d, s.pc.k);
    case _ => OtherTablesKeep(d, FenceDb(s, f));
  }

  lemma CommandTables(s: Sys, c: CommandAction)
    requires TablesInv(s.db) && CommandOk(s, c)
    ensures TablesInv(CommandDb(s, c))
    ensures CommandDb(s, c).ops == s.db.ops && CommandDb(s, c).attempts == s.db.attempts
  {
    OtherTablesKeep(s.db, CommandDb(s, c));
  }

  // ------------------------------------------------------------------ servers, step by step

  // The issued PUT is the only one of its operation and the last of its room.
  lemma IssueKeepsWrites(s: Sys)
    requires TablesInv(s.db) && WritesInv(s.world) && WriterInv(s) && FenceOk(s, IssuePut)
    ensures WritesInv(FenceWorld(s, IssuePut))
  {
    var w, n := s.world, FenceWorld(s, IssuePut);
    var put := Attempting(s, s.pc.k, s.pc.attempt);
    assert forall p | Alive(n, p) :: p == put || Alive(w, p);
    forall p | Alive(w, p)
      ensures p.attempt != put.attempt && p.op != put.op && (p.room == put.room ==> p !in w.flying && p.sequence < put.sequence)
    {
      assert p.attempt in s.db.attempts;
    }
  }

  lemma LandingKeepsWrites(w: World, put: Put)
    requires WritesInv(w) && put in w.flying
    ensures WritesInv(ServerWorld(w, PutLands(put)))
  {
    var n := ServerWorld(w, PutLands(put));
    assert forall p :: p in n.committed <==> p in w.committed || p == put;
    assert forall p :: Alive(n, p) <==> Alive(w, p);
    forall i: nat, j: nat | i < j < |n.committed|
      ensures n.committed[i].op != n.committed[j].op
      ensures n.committed[i].room == n.committed[j].room ==> n.committed[i].sequence < n.committed[j].sequence
    {
      if j == |w.committed| {
        assert w.committed[i] in w.committed;
      }
    }
  }

  lemma FewerWritesKeep(w: World, n: World)
    requires WritesInv(w) && n.committed == w.committed && n.flying <= w.flying && w.issued <= n.issued
    ensures WritesInv(n)
  {
    assert forall p | Alive(n, p) :: Alive(w, p);
  }

  lemma CommittedStays(w: World, e: ServerAction)
    requires ServerOk(w, e)
    ensures w.committed <= ServerWorld(w, e).committed
    ensures forall c | EverCommitted(w, c) :: EverCommitted(ServerWorld(w, e), c)
  {
    var n := ServerWorld(w, e);
    forall c | EverCommitted(w, c)
      ensures EverCommitted(n, c)
    {
      var i :| 0 <= i < |w.committed| && w.committed[i].content == c;
      assert n.committed[i].content == c;
    }
  }

  lemma ServerKeepsServer(w: World, e: ServerAction)
    requires WritesInv(w) && ServerInv(w) && ServerOk(w, e)
    ensures WritesInv(ServerWorld(w, e)) && ServerInv(ServerWorld(w, e))
  {
    var n := ServerWorld(w, e);
    CommittedStays(w, e);
    if e.PutLands? {
      LandingKeepsWrites(w, e.put);
      assert n.committed[|w.committed|].content == e.put.content;
    } else {
      FewerWritesKeep(w, n);
    }
    forall x <- n.issued
      ensures exists m <- n.markers :: m.attempt == x
    {
      var m :| m in w.markers && m.attempt == x;
      assert m in n.markers;
    }
  }

  lemma FenceKeepsServer(s: Sys, f: FenceAction)
    requires Inv(s) && FenceOk(s, f)
    ensures WritesInv(FenceWorld(s, f)) && ServerInv(FenceWorld(s, f))
  {
    var w, n := s.world, FenceWorld(s, f);
    assert forall c | EverCommitted(w, c) :: EverCommitted(n, c);
    if f.IssuePut? {
      IssueKeepsWrites(s);
    } else {
      FewerWritesKeep(w, n);
    }
  }

  // ------------------------------------------------------------------ the link, step by step

  ghost predicate Shows(op: Op, w: World, p: Put) {
    && op.request.id == p.op && op.request.room == p.room && Attempted(op.state)
    && (p in w.flying ==> op.state.Prepared?)
    && (InWrite(op.state) ==> op.intended == Some(p.content))
  }

  lemma TracksFewer(d: Db, w: World, n: World)
    requires Tracks(d, w) && w.used <= n.used && n.flying <= w.flying
    requires forall p | Alive(n, p) :: Alive(w, p)
    ensures Tracks(d, n)
  {}

  lemma TracksUpdate(d: Db, n: Db, w: World, k: nat)
    requires Tracks(d, w) && n.attempts == d.attempts && k < |d.ops|
    requires |n.ops| == |d.ops| && (forall j | 0 <= j < |d.ops| && j != k :: n.ops[j] == d.ops[j])
    requires forall p | Alive(w, p) && p.attempt in d.attempts && p.sequence == k :: Shows(n.ops[k], w, p)
    ensures Tracks(n, w)
  {}

  lemma SameOpsTrack(d: Db, n: Db, w: World)
    requires Tracks(d, w) && n.ops == d.ops && n.attempts.Keys == d.attempts.Keys
    ensures Tracks(n, w)
  {}

  lemma ServerTracks(d: Db, w: World, e: ServerAction)
    requires Tracks(d, w) && WritesInv(w) && ServerOk(w, e)
    ensures Tracks(d, ServerWorld(w, e))
  {
    var n := ServerWorld(w, e);
    if e.PutLands? {
      assert forall p :: p in n.committed <==> p in w.committed || p == e.put;
    }
    TracksFewer(d, w, n);
  }

  // A restore point under a step of the writer.
  lemma SavedTracks(s: Sys, f: FenceAction, d: Db)
    requires Inv(s) && FenceOk(s, f) && d in s.saved
    ensures Tracks(d, FenceWorld(s, f))
  {
    var w, n := s.world, FenceWorld(s, f);
    if f.IssuePut? {
      var put := Attempting(s, s.pc.k, s.pc.attempt);
      assert forall p | Alive(n, p) :: p == put || Alive(w, p);
      assert Foresees(d, s);
    } else {
      TracksFewer(d, w, n);
    }
  }

  // Nothing of an operation that was not attempted is alive: it may change freely.
  lemma UnsentTracks(d: Db, n: Db, w: World, k: nat)
    requires Tracks(d, w) && k < |d.ops| && !Attempted(d.ops[k].state)
    requires n.attempts == d.attempts && |n.ops| == |d.ops|
    requires forall j | 0 <= j < |d.ops| && j != k :: n.ops[j] == d.ops[j]
    ensures Tracks(n, w)
  {
    assert forall p | Alive(w, p) && p.attempt in d.attempts :: p.sequence != k;
  }

  lemma JudgeTracks(d: Db, w: World, k: nat)
    requires Tracks(d, w) && k < |d.ops|
    ensures Tracks(JudgeDb(d, k), w)
  {
    TracksUpdate(d, JudgeDb(d, k), w, k);
  }

  // An operation is marked applied, or superseded, only when its own PUT has committed.
  lemma ConfirmTracks(d: Db, n: Db, w: World, k: nat, content: Content)
    requires Tracks(d, w) && WritesInv(w) && EverCommitted(w, content)
    requires k < |d.ops| && InWrite(d.ops[k].state) && d.ops[k].intended == Some(content)
    requires n.attempts == d.attempts && |n.ops| == |d.ops|
    requires forall j | 0 <= j < |d.ops| && j != k :: n.ops[j] == d.ops[j]
    requires n.ops[k].request == d.ops[k].request && (n.ops[k].state.Applied? || n.ops[k].state.OutcomeUnknown?)
    ensures Tracks(n, w)
  {
    var i :| 0 <= i < |w.committed| && w.committed[i].content == content;
    assert Alive(w, w.committed[i]);
    forall p | Alive(w, p) && p.attempt in d.attempts && p.sequence == k
      ensures Shows(n.ops[k], w, p)
    {
      assert p.op == w.committed[i].op;
    }
    TracksUpdate(d, n, w, k);
  }

  // An observation records its content, lowers no revision, and touches at most the
  // operation whose marker it is.
  lemma ObserveShape(d: Db, room: RoomId, content: Content)
    requires ObserveDb(d, room, content).Some?
    ensures var n := ObserveDb(d, room, content).value;
            && room in n.rooms && n.rooms[room].observed == content
            && (forall r <- d.rooms :: r in n.rooms && d.rooms[r].revision <= n.rooms[r].revision)
            && n.attempts == d.attempts && n.commands == d.commands && n.children == d.children
            && |n.ops| == |d.ops|
            && (forall j | 0 <= j < |d.ops| ::
                  || n.ops[j] == d.ops[j]
                  || (&& FirstInWrite(d.ops, room) == Some(j)
                      && InWrite(d.ops[j].state) && d.ops[j].intended == Some(content)
                      && (n.ops[j].state.Applied? || n.ops[j].state.OutcomeUnknown?)
                      && n.ops[j].request == d.ops[j].request && n.ops[j].intended == d.ops[j].intended))
  {}

  // The tables beside rooms and operations are the same.
  predicate Beside(d: Db, n: Db) {
    n.attempts == d.attempts && n.commands == d.commands && n.children == d.children
  }

  lemma JournalLeavesOthers(s: Sys, j: JournalAction)
    requires JournalOk(s, j)
    ensures Beside(s.db, JournalDb(s, j))
  {
    hide JournalOk, ObserveDb, JudgeDb, PrepareDb;
    if j.Observe? {
      ObserveLeavesOthers(s);
    } else if j.Judge? {
      JudgeLeavesOthers(s);
    } else if j.Prepare? {
      PrepareLeavesOthers(s, j.under);
    }
  }

  lemma JudgeOnlyOps(d: Db, k: nat)
    requires k < |d.ops|
    ensures Beside(d, JudgeDb(d, k))
  {}

  lemma JudgeLeavesOthers(s: Sys)
    requires JournalOk(s, Judge)
    ensures Beside(s.db, JournalDb(s, Judge))
  {
    hide JudgeDb;
    JudgeOnlyOps(s.db, s.pc.job.k);
  }

  lemma PrepareLeavesOthers(s: Sys, under: Authority)
    requires JournalOk(s, Prepare(under))
    ensures Beside(s.db, JournalDb(s, Prepare(under)))
  {}

  lemma ObserveLeavesOthers(s: Sys)
    requires JournalOk(s, Observe)
    ensures Beside(s.db, JournalDb(s, Observe))
  {
    ObserveShape(s.db, s.pc.room, s.pc.content);
    hide ObserveDb;
  }

  lemma ObserveTracks(d: Db, n: Db, w: World, room: RoomId, content: Content)
    requires Aims(d) && Tracks(d, w) && WritesInv(w) && ObserveDb(d, room, content) == Some(n)
    requires content.Marked? ==> EverCommitted(w, content)
    ensures Tracks(n, w)
  {
    ObserveShape(d, room, content);
    if n.ops != d.ops {
      ConfirmTracks(d, n, w, FirstInWrite(d.ops, room).value, content);
    } else {
      SameOpsTrack(d, n, w);
    }
  }

  lemma JournalTracks(s: Sys, j: JournalAction)
    requires Inv(s) && JournalOk(s, j)
    ensures Tracks(JournalDb(s, j), s.world)
  {
    var d, w, n := s.db, s.world, JournalDb(s, j);
    match j
    case Submit(_) =>
    case Observe => ObserveTracks(d, n, w, s.pc.room, s.pc.content);
    case CancelQueued(k) => UnsentTracks(d, n, w, k);
    case RefuseQueued(k, _, _) => UnsentTracks(d, n, w, k);
    case Conflict => UnsentTracks(d, n, w, s.pc.job.k);
    case Prepare(_) => UnsentTracks(d, n, w, s.pc.job.k);
    case Judge => JudgeTracks(d, w, s.pc.job.k);
    case _ =>
  }

  lemma AnswerTracks(s: Sys, f: FenceAction)
    requires Inv(s) && FenceOk(s, f) && (f.AnswerAccepted? || f.AnswerRefused? || f.AnswerRetry?)
    ensures Tracks(FenceDb(s, f), FenceWorld(s, f))
  {
    var d, w, n, k := s.db, s.world, FenceWorld(s, f), s.pc.k;
    SavedTracks(s, f, d);
    forall p | Alive(n, p) && p.attempt in d.attempts && p.sequence == k
      ensures Shows(FenceDb(s, f).ops[k], n, p)
    {
      assert Alive(w, p) && p.attempt == s.pc.attempt;
      if f.AnswerAccepted? {
        var i :| 0 <= i < |w.committed| && w.committed[i].attempt == s.pc.attempt;
        assert Alive(w, w.committed[i]);
      }
    }
    TracksUpdate(d, FenceDb(s, f), n, k);
  }

  lemma FenceTracks(s: Sys, f: FenceAction)
    requires Inv(s) && FenceOk(s, f)
    ensures Tracks(FenceDb(s, f), FenceWorld(s, f))
  {
    var d, n := s.db, FenceDb(s, f);
    if f.AnswerAccepted? || f.AnswerRefused? || f.AnswerRetry? {
      AnswerTracks(s, f);
    } else {
      SavedTracks(s, f, d);
      if f.FenceFails? {
        TracksUpdate(d, n, s.world, s.pc.k);
      } else if !f.OpenAttempt? {
        SameOpsTrack(d, n, FenceWorld(s, f));
      }
    }
  }

  // ------------------------------------------------------------------ the writer, step by step

  // The head of a room, still queued, is not touched by an observation of its room.
  lemma ObserveSparesQueued(d: Db, room: RoomId, content: Content, k: nat)
    requires TablesInv(d) && Head(d.ops, k) && d.ops[k].state.Queued? && d.ops[k].request.room == room
    requires ObserveDb(d, room, content).Some?
    ensures ObserveDb(d, room, content).value.ops == d.ops
  {
    var first := FirstInWrite(d.ops, room);
    if first.Some? {
      assert first.value != k && SameRoom(d, k, first.value);
    }
  }

  lemma JournalJob(s: Sys, j: JournalAction)
    requires Inv(s) && JournalOk(s, j)
    ensures JobInv(Apply(s, Journal(j)))
  {
    if j.Observe? && s.pc.job.ForWrite? {
      ObserveSparesQueued(s.db, s.pc.room, s.pc.content, s.pc.job.k);
    }
  }

  lemma PrepareWriter(s: Sys, under: Authority)
    requires Inv(s) && JournalOk(s, Prepare(under))
    ensures WriterInv(Apply(s, Journal(Prepare(under))))
  {
    var n, k := Apply(s, Journal(Prepare(under))), s.pc.job.k;
    forall p | Alive(n.world, p) && p.attempt in n.db.attempts
      ensures p.op != n.db.ops[k].request.id
      ensures p.room == n.db.ops[k].request.room ==> p !in n.world.flying && p.sequence < k
    {
      var i := p.sequence;
      assert i != k;
      if p.room == s.db.ops[k].request.room {
        assert SameRoom(s.db, i, k) && SameRoom(s.db, k, i);
      }
    }
  }

  lemma AloneStays(s: Sys, n: Sys, k: nat, except: set<AttemptId>)
    requires k < |s.db.ops| && k < |n.db.ops| && Alone(s, k, except)
    requires n.db.ops[k].request == s.db.ops[k].request && n.world.flying <= s.world.flying
    requires forall p | Alive(n.world, p) :: Alive(s.world, p)
    requires forall p | Alive(n.world, p) && p.attempt in n.db.attempts :: p.attempt in s.db.attempts
    ensures Alone(n, k, except)
  {}

  lemma IssueWriter(s: Sys)
    requires Inv(s) && FenceOk(s, IssuePut)
    ensures WriterInv(Apply(s, Fence(IssuePut)))
  {
    var n := Apply(s, Fence(IssuePut));
    var put := Attempting(s, s.pc.k, s.pc.attempt);
    assert forall p | Alive(n.world, p) :: p == put || Alive(s.world, p);
  }

  lemma FenceWriter(s: Sys, f: FenceAction)
    requires Inv(s) && FenceOk(s, f)
    ensures WriterInv(Apply(s, Fence(f)))
  {
    var n := Apply(s, Fence(f));
    if f.IssuePut? {
      IssueWriter(s);
    } else if Engaged(n.pc) {
      AloneStays(s, n, s.pc.k, {});
      if f.VerifyFence? {
        forall x <- s.world.issued
          ensures x in n.db.attempts
        {
          var m :| m in s.world.markers && m.attempt == x;
        }
      }
    }
  }

  lemma ServerWriter(s: Sys, e: ServerAction)
    requires Inv(s) && ServerOk(s.world, e)
    ensures WriterInv(Apply(s, Server(e))) && JobInv(Apply(s, Server(e)))
  {
    var n := Apply(s, Server(e));
    CommittedStays(s.world, e);
    assert forall p | Alive(n.world, p) :: Alive(s.world, p);
    if Engaged(s.pc) {
      AloneStays(s, n, s.pc.k, if s.pc.Sent? then {s.pc.attempt} else {});
      if s.pc.Fenced? {
        var m :| m in s.world.markers && m.attempt == s.pc.attempt;
        assert m in n.world.markers;
      }
    }
  }

  // ------------------------------------------------------------------ every step

  lemma SavedInv(s: Sys, n: Sys)
    requires Inv(s) && n.saved == s.saved + {n.db} && n.world == s.world && !InFence(n.pc)
    requires TablesInv(n.db) && Tracks(n.db, n.world) && JobInv(n) && WriterInv(n)
    ensures Inv(n)
  {}

  lemma FenceForesees(s: Sys, f: FenceAction, d: Db)
    requires Inv(s) && FenceOk(s, f) && d in s.saved
    ensures Foresees(d, Apply(s, Fence(f)))
  {
    assert Tracks(d, s.world) && Foresees(d, s);
    assert f.OpenAttempt? ==> f.attempt !in d.attempts;
  }

  lemma FenceStep(s: Sys, f: FenceAction)
    requires Inv(s) && FenceOk(s, f)
    ensures Inv(Apply(s, Fence(f)))
  {
    var n := Apply(s, Fence(f));
    FenceTables(s, f);
    FenceKeepsServer(s, f);
    FenceTracks(s, f);
    FenceWriter(s, f);
    forall d <- s.saved
      ensures Tracks(d, n.world) && Foresees(d, n)
    {
      SavedTracks(s, f, d);
      FenceForesees(s, f, d);
    }
  }

  lemma ServerStep(s: Sys, e: ServerAction)
    requires Inv(s) && ServerOk(s.world, e)
    ensures Inv(Apply(s, Server(e)))
  {
    var n := Apply(s, Server(e));
    ServerKeepsServer(s.world, e);
    ServerWriter(s, e);
    forall d <- n.saved
      ensures Tracks(d, n.world) && Foresees(d, n)
    {
      ServerTracks(d, s.world, e);
      assert Foresees(d, s);
    }
  }

  lemma JournalStep(s: Sys, j: JournalAction)
    requires Inv(s) && JournalOk(s, j)
    ensures Inv(Apply(s, Journal(j)))
  {
    JournalTables(s, j);
    JournalTracks(s, j);
    JournalJob(s, j);
    if j.Prepare? {
      PrepareWriter(s, j.under);
    }
    SavedInv(s, Apply(s, Journal(j)));
  }

  lemma CommandStep(s: Sys, c: CommandAction)
    requires Inv(s) && CommandOk(s, c)
    ensures Inv(Apply(s, Commands(c)))
  {
    CommandTables(s, c);
    SameOpsTrack(s.db, CommandDb(s, c), s.world);
    SavedInv(s, Apply(s, Commands(c)));
  }

  lemma NextInv(s: Sys, a: Action)
    requires Inv(s) && Enabled(s, a)
    ensures Inv(Apply(s, a))
  {
    match a
    case Journal(j) => JournalStep(s, j);
    case Fence(f) => FenceStep(s, f);
    case Commands(c) => CommandStep(s, c);
    case Server(e) => ServerStep(s, e);
    case _ =>
  }

  lemma {:induction false} RunInv(s: Sys, log: seq<Action>)
    requires Inv(s) && Legal(s, log)
    ensures Inv(Exec(s, log))
    decreases |log|
  {
    if log != [] {
      NextInv(s, log[0]);
      RunInv(Apply(s, log[0]), log[1..]);
    }
  }

  lemma ReachableInv(s: Sys)
    requires Reachable(s)
    ensures Inv(s)
  {
    var log :| Legal(INITIAL, log) && Exec(INITIAL, log) == s;
    InitialInv();
    RunInv(INITIAL, log);
  }

  lemma {:induction false} AppendStep(s: Sys, log: seq<Action>, a: Action)
    requires Legal(s, log) && Enabled(Exec(s, log), a)
    ensures Legal(s, log + [a]) && Exec(s, log + [a]) == Apply(Exec(s, log), a)
    decreases |log|
  {
    if log == [] {
      assert log + [a] == [a] && [a][1..] == [];
    } else {
      AppendStep(Apply(s, log[0]), log[1..], a);
      assert (log + [a])[1..] == log[1..] + [a];
    }
  }

  lemma ReachableStep(s: Sys, a: Action)
    requires Reachable(s) && Enabled(s, a)
    ensures Reachable(Apply(s, a))
  {
    var log :| Legal(INITIAL, log) && Exec(INITIAL, log) == s;
    AppendStep(INITIAL, log, a);
  }
}

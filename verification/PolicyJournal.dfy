/**
 The durable tables of the room-consent journal, the restore fence and the CRM command
 layer, the remote they talk to, and every step that can happen to them: one action per
 committed database transaction or remote interaction, so that a crash, an external
 writer, a late server commit or a restored database can come between any two of them.
 */
module PolicyJournal {
  import opened Wrappers

  type RoomId = string
  type CommandId = string
  type AttemptId = nat

  const MAX_REVISION: nat := 9007199254740991

  // Operation ids are hashes of the journal epoch with a command id (and a room); a hash
  // is modelled as the tuple it is taken of.
  datatype OpId = ManualOp(command: CommandId) | CrmOp(command: CommandId, room: RoomId)

  datatype Level = Private | Share | Direct | Inherit

  datatype Authority = Authority(owner: string, generation: string, manager: string, localUser: string)

  datatype Request = Request(
    id: OpId, actor: string, authority: Authority, room: RoomId,
    expected: nat, level: Level, binding: string, membership: string)

  // Room account data: anything another writer stored, or this journal's own marker.
  datatype Content =
    | Foreign(text: string)
    | Marked(op: OpId, revision: nat, owner: string, generation: string, level: Level)

  datatype OpState = Queued | Prepared | Verifying | Applied | Rejected | Canceled | OutcomeUnknown

  predicate Terminal(state: OpState) {
    state.Applied? || state.Rejected? || state.Canceled? || state.OutcomeUnknown?
  }

  // A write of this operation may be on its way or may have been made.
  predicate Attempted(state: OpState) {
    state.Prepared? || state.Verifying? || state.Applied? || state.OutcomeUnknown?
  }

  predicate InWrite(state: OpState) {
    state.Prepared? || state.Verifying?
  }

  // The position of an operation in the table is its sequence number.
  datatype Op = Op(
    request: Request, state: OpState, reason: string,
    intended: Option<Content>, resulting: Option<nat>, previous: Option<Content>)

  datatype Room = Room(revision: nat, observed: Content)

  // One remote restore fence: the checkpoint names the operation and its sequence.
  datatype Attempt = Attempt(sequence: nat, op: OpId, confirmed: bool)

  datatype CommandState =
    ApprovalRequired | PreparedTicket | Committing | Submitted | Canceling | Complete | Refused

  // rooms and revisions are the ticket; safe is the safe_to_change_membership field of the
  // stored result.
  datatype Command = Command(
    state: CommandState, rooms: seq<RoomId>, revisions: map<RoomId, nat>,
    binding: string, membership: string, safe: bool)

  datatype Db = Db(
    rooms: map<RoomId, Room>, ops: seq<Op>, attempts: map<AttemptId, Attempt>,
    commands: map<CommandId, Command>, children: map<OpId, CommandId>)

  datatype Put = Put(attempt: AttemptId, op: OpId, sequence: nat, room: RoomId, content: Content)

  datatype Marker = Marker(attempt: AttemptId, sequence: nat, op: OpId)

  // What the servers hold. flying: policy PUTs that may still commit. committed: the
  // order in which policy PUTs did. issued and used only grow.
  datatype World = World(
    remote: map<RoomId, Content>, flying: set<Put>, committed: seq<Put>,
    markers: set<Marker>, markersFlying: set<Marker>,
    issued: set<AttemptId>, used: set<AttemptId>)

  datatype Job = ForWrite(k: nat) | ForReconcile(k: nat) | ForInspect

  // Where the lock holder is. Everything here is lost in a crash.
  datatype Pc =
    | Idle
    | Ready(job: Job, room: RoomId)
    | Holding(job: Job, room: RoomId, content: Content)
    | Seen(job: Job, room: RoomId, content: Content)
    | Writing(k: nat)
    | Verified(k: nat)
    | Fencing(k: nat, attempt: AttemptId)
    | MarkerSent(k: nat, attempt: AttemptId)
    | Fenced(k: nat, attempt: AttemptId)
    | Sent(k: nat, attempt: AttemptId)

  // saved: every database that ever existed, each a possible restore point.
  datatype Sys = Sys(db: Db, pc: Pc, world: World, saved: set<Db>)

  // Calls on the journal.
  datatype JournalAction =
    | Submit(request: Request)
    | CancelQueued(k: nat)
    | RefuseQueued(k: nat, state: OpState, reason: string)
    | Start(job: Job, room: RoomId)
    | Fetch
    | Observe
    | GiveUp
    | Conflict
    | Prepare(under: Authority)
    | Judge

  // The fenced write and the answers to it.
  datatype FenceAction =
    | Recheck
    | VerifyFence
    | OpenAttempt(attempt: AttemptId)
    | SendMarker
    | ConfirmMarker
    | FenceFails
    | IssuePut
    | AnswerAccepted
    | AnswerRefused
    | AnswerRetry
    | AnswerLost

  // The prepare/commit/cancel layer.
  datatype CommandAction =
    | PutCommand(command: CommandId, row: Command)
    | Activate(command: CommandId, rooms: seq<RoomId>, revisions: map<RoomId, nat>)
    | BeginCommit(command: CommandId)
    | LinkChild(id: OpId)
    | FinishCommit(command: CommandId)
    | RecordCancel(command: CommandId)
    | SettleCancel(command: CommandId)
    | RefuseCommand(command: CommandId)
    | FinishCommand(command: CommandId)

  // The homeserver, its other clients and the network.
  datatype ServerAction =
    | ExternalWrite(room: RoomId, content: Content)
    | PutLands(put: Put)
    | PutDies(put: Put)
    | MarkerLands(marker: Marker)
    | MarkerDies(marker: Marker)

  datatype Action =
    | Journal(j: JournalAction)
    | Fence(f: FenceAction)
    | Commands(c: CommandAction)
    | Server(e: ServerAction)
    | Crash
    | Restore(db: Db)

  const EMPTY_DB := Db(map[], [], map[], map[], map[])
  const EMPTY_WORLD := World(map[], {}, [], {}, {}, {}, {})
  const INITIAL := Sys(EMPTY_DB, Idle, EMPTY_WORLD, {EMPTY_DB})

  // A read of an absent account-data key returns the empty object.
  function RemoteContent(w: World, room: RoomId): Content {
    if room in w.remote then w.remote[room] else Foreign("{}")
  }

  // ------------------------------------------------------------------ table queries

  function FirstInWrite(ops: seq<Op>, room: RoomId, i: nat := 0): (r: Option<nat>)
    requires i <= |ops|
    ensures r.Some? ==> i <= r.value < |ops| && ops[r.value].request.room == room && InWrite(ops[r.value].state)
    ensures forall j :: i <= j < (if r.Some? then r.value else |ops|) ==>
              !(ops[j].request.room == room && InWrite(ops[j].state))
    decreases |ops| - i
  {
    if i == |ops| then None
    else if ops[i].request.room == room && InWrite(ops[i].state) then Some(i)
    else FirstInWrite(ops, room, i + 1)
  }

  function FindOp(ops: seq<Op>, id: OpId, i: nat := 0): (r: Option<nat>)
    requires i <= |ops|
    ensures r.Some? ==> i <= r.value < |ops| && ops[r.value].request.id == id
    ensures forall j :: i <= j < (if r.Some? then r.value else |ops|) ==> ops[j].request.id != id
    decreases |ops| - i
  {
    if i == |ops| then None
    else if ops[i].request.id == id then Some(i)
    else FindOp(ops, id, i + 1)
  }

  // The first unfinished operation of its room: the only one process_next may touch.
  predicate Head(ops: seq<Op>, k: nat) {
    && k < |ops|
    && !Terminal(ops[k].state)
    && forall j :: 0 <= j < k && ops[j].request.room == ops[k].request.room ==> Terminal(ops[j].state)
  }

  predicate PrivateWaiting(ops: seq<Op>, room: RoomId) {
    exists j :: 0 <= j < |ops| && ops[j].request.room == room && ops[j].state.Queued?
                && ops[j].request.id.ManualOp? && ops[j].request.level.Private?
  }

  predicate Closed(state: CommandState) {
    state.Canceling? || state.Complete? || state.Refused?
  }

  // The part of the authorization callback that reads these tables.
  predicate MayWrite(d: Db, op: Op) {
    op.request.id.CrmOp? ==>
      && op.request.id in d.children
      && d.children[op.request.id] in d.commands
      && !Closed(d.commands[d.children[op.request.id]].state)
      && !PrivateWaiting(d.ops, op.request.room)
  }

  predicate ChildrenSettled(d: Db, command: CommandId, rooms: seq<RoomId>) {
    forall k | 0 <= k < |d.ops| ::
      d.ops[k].request.id.CrmOp? && d.ops[k].request.id.command == command && d.ops[k].request.id.room in rooms
      ==> Terminal(d.ops[k].state)
  }

  // The server's markers are exactly the local attempts, and each local attempt's
  // operation still exists.
  predicate FenceMatches(d: Db, w: World) {
    && (forall m <- w.markers :: m.attempt in d.attempts
         && d.attempts[m.attempt].sequence == m.sequence && d.attempts[m.attempt].op == m.op)
    && (forall a <- d.attempts :: Marker(a, d.attempts[a].sequence, d.attempts[a].op) in w.markers)
    && (forall a <- d.attempts :: FindOp(d.ops, d.attempts[a].op).Some?)
  }

  // ------------------------------------------------------------------ table updates

  function SetOp(d: Db, k: nat, state: OpState, reason: string): Db
    requires k < |d.ops|
  {
    d.(ops := d.ops[k := d.ops[k].(state := state, reason := reason)])
  }

  function Requeue(d: Db, k: nat): Db
    requires k < |d.ops|
  {
    d.(ops := d.ops[k := d.ops[k].(state := Queued, reason := "write-retryable",
                                   intended := None, resulting := None, previous := None)])
  }

  function Confirm(attempts: map<AttemptId, Attempt>): map<AttemptId, Attempt> {
    map a | a in attempts :: attempts[a].(confirmed := true)
  }

  predicate Uninterrupted(op: Op, room: Room) {
    op.resulting == Some(room.revision + 1) && op.previous == Some(room.observed)
  }

  // The observation is the marker of the room's write in progress.
  predicate Settled(d: Db, room: RoomId, content: Content) {
    var first := FirstInWrite(d.ops, room);
    first.Some? && d.ops[first.value].intended == Some(content)
  }

  function SettledOp(op: Op, row: Room): Op {
    if Uninterrupted(op, row) then op.(state := Applied, reason := "")
    else op.(state := OutcomeUnknown, reason := "superseded-write-confirmed")
  }

  // None stands for the revision-exhausted error, which changes nothing.
  function ObserveDb(d: Db, room: RoomId, content: Content): (r: Option<Db>)
    ensures r.Some? ==> |r.value.ops| == |d.ops|
  {
    if room !in d.rooms then
      Some(d.(rooms := d.rooms[room := Room(0, content)]))
    else if content == d.rooms[room].observed then
      Some(d)
    else if d.rooms[room].revision + 1 >= MAX_REVISION then
      None
    else
      var moved := d.rooms[room := Room(d.rooms[room].revision + 1, content)];
      if !Settled(d, room, content) then Some(d.(rooms := moved))
      else
        var k := FirstInWrite(d.ops, room).value;
        Some(d.(rooms := moved, ops := d.ops[k := SettledOp(d.ops[k], d.rooms[room])]))
  }

  // What a write stores: the marker of the operation, under the journal's own authority.
  function Intended(op: Op, revision: nat, under: Authority): Content {
    Marked(op.request.id, revision, under.owner, under.generation, op.request.level)
  }

  // A manual request may come from another generation of the pairing; a grant may not.
  predicate AuthorityMatches(under: Authority, request: Request) {
    if request.id.ManualOp? then request.authority.localUser == under.localUser else request.authority == under
  }

  function PrepareDb(d: Db, k: nat, content: Content, under: Authority): Db
    requires k < |d.ops| && d.ops[k].request.room in d.rooms
  {
    var revision := d.rooms[d.ops[k].request.room].revision + 1;
    d.(ops := d.ops[k := d.ops[k].(state := Prepared, intended := Some(Intended(d.ops[k], revision, under)),
                                   resulting := Some(revision), previous := Some(content))])
  }

  function JudgeDb(d: Db, k: nat): Db
    requires k < |d.ops|
  {
    if d.ops[k].state.Prepared? then SetOp(d, k, Prepared, "write-unresolved-ordering-blocked")
    else if d.ops[k].state.Verifying? then SetOp(d, k, OutcomeUnknown, "write-not-confirmed-review-required")
    else d
  }

  // A reconciling read: the observation, then the judgement of the operation.
  function Reconciled(d: Db, k: nat, content: Content): Option<Db>
    requires k < |d.ops|
  {
    match ObserveDb(d, d.ops[k].request.room, content)
    case None => None
    case Some(n) => Some(JudgeDb(n, k))
  }

  function Attempting(s: Sys, k: nat, attempt: AttemptId): Put
    requires k < |s.db.ops| && s.db.ops[k].intended.Some?
  {
    Put(attempt, s.db.ops[k].request.id, k, s.db.ops[k].request.room, s.db.ops[k].intended.value)
  }

  // ------------------------------------------------------------------ the steps

  predicate Committed(w: World, attempt: AttemptId) {
    exists i :: 0 <= i < |w.committed| && w.committed[i].attempt == attempt
  }

  predicate EverCommitted(w: World, content: Content) {
    exists i :: 0 <= i < |w.committed| && w.committed[i].content == content
  }

  // A grant asks for Direct, at the revision its command's ticket froze, for its membership.
  predicate AsTicketed(request: Request, row: Command) {
    && request.level.Direct?
    && request.room in row.revisions && request.expected == row.revisions[request.room]
    && request.binding == row.binding && request.membership == row.membership
  }

  // The journal's methods need the lock, and the command layer runs in the same thread:
  // both start only when nothing is under way.
  predicate JournalOk(s: Sys, j: JournalAction) {
    var d := s.db;
    match j
    case Submit(request) =>
      && s.pc.Idle? && request.room in d.rooms && FindOp(d.ops, request.id).None?
      && (request.id.CrmOp? ==>
           && request.id.room == request.room
           && request.id.command in d.commands && d.commands[request.id.command].state.Committing?
           && request.room in d.commands[request.id.command].rooms
           && AsTicketed(request, d.commands[request.id.command]))
    case CancelQueued(k) =>
      s.pc.Idle? && k < |d.ops| && d.ops[k].state.Queued? && d.ops[k].request.id.CrmOp?
    case RefuseQueued(k, state, _) =>
      s.pc.Idle? && Head(d.ops, k) && d.ops[k].state.Queued? && (state.Canceled? || state.Rejected?)
    case Start(job, room) =>
      s.pc.Idle? && (match job
                     case ForWrite(k) => Head(d.ops, k) && d.ops[k].request.room == room
                                         && d.ops[k].state.Queued? && MayWrite(d, d.ops[k])
                     case ForReconcile(k) => Head(d.ops, k) && d.ops[k].request.room == room && InWrite(d.ops[k].state)
                     case ForInspect => true)
    case Fetch => s.pc.Ready?
    case Observe => s.pc.Holding? && ObserveDb(d, s.pc.room, s.pc.content).Some?
    case GiveUp => s.pc.Ready? || s.pc.Holding? || s.pc.Seen?
    case Conflict => s.pc.Seen? && s.pc.job.ForWrite? && s.pc.job.k < |d.ops|
    case Prepare(under) =>
      && s.pc.Seen? && s.pc.job.ForWrite? && s.pc.job.k < |d.ops| && s.pc.room in d.rooms
      && d.ops[s.pc.job.k].request.room == s.pc.room && AuthorityMatches(under, d.ops[s.pc.job.k].request)
      && d.rooms[s.pc.room].revision == d.ops[s.pc.job.k].request.expected
      && d.rooms[s.pc.room].revision + 1 < MAX_REVISION
    case Judge => s.pc.Seen? && s.pc.job.ForReconcile? && s.pc.job.k < |d.ops|
  }

  function JournalDb(s: Sys, j: JournalAction): Db
    requires JournalOk(s, j)
  {
    var d := s.db;
    match j
    case Submit(request) => d.(ops := d.ops + [Op(request, Queued, "", None, None, None)])
    case CancelQueued(k) => SetOp(d, k, Canceled, "membership-intent-canceled")
    case RefuseQueued(k, state, reason) => SetOp(d, k, state, reason)
    case Observe => ObserveDb(d, s.pc.room, s.pc.content).value
    case Conflict => SetOp(d, s.pc.job.k, Rejected, "revision-conflict")
    case Prepare(under) => PrepareDb(d, s.pc.job.k, s.pc.content, under)
    case Judge => JudgeDb(d, s.pc.job.k)
    case _ => d
  }

  function JournalPc(s: Sys, j: JournalAction): Pc
    requires JournalOk(s, j)
  {
    match j
    case Start(job, room) => Ready(job, room)
    case Fetch => Holding(s.pc.job, s.pc.room, RemoteContent(s.world, s.pc.room))
    case Observe => Seen(s.pc.job, s.pc.room, s.pc.content)
    case Prepare(_) => Writing(s.pc.job.k)
    case _ => Idle
  }

  predicate FenceOk(s: Sys, f: FenceAction) {
    var d, w := s.db, s.world;
    match f
    case Recheck => s.pc.Idle? && FenceMatches(d, w)
    case VerifyFence => s.pc.Writing? && FenceMatches(d, w)
    case OpenAttempt(attempt) => s.pc.Verified? && attempt !in w.used && s.pc.k < |d.ops|
    case SendMarker => s.pc.Fencing? && s.pc.attempt in d.attempts
    case ConfirmMarker =>
      && s.pc.MarkerSent? && s.pc.attempt in d.attempts
      && Marker(s.pc.attempt, d.attempts[s.pc.attempt].sequence, d.attempts[s.pc.attempt].op) in w.markers
    case FenceFails =>
      (s.pc.Writing? || s.pc.Verified? || s.pc.Fencing? || s.pc.MarkerSent?) && s.pc.k < |d.ops|
    case IssuePut => s.pc.Fenced? && s.pc.k < |d.ops| && d.ops[s.pc.k].intended.Some?
    case AnswerAccepted => s.pc.Sent? && s.pc.k < |d.ops| && Committed(w, s.pc.attempt)
    case AnswerRefused => s.pc.Sent? && s.pc.k < |d.ops| && !Committed(w, s.pc.attempt)
    case AnswerRetry => s.pc.Sent? && s.pc.k < |d.ops| && !Committed(w, s.pc.attempt)
    case AnswerLost => s.pc.Sent?
  }

  function FenceDb(s: Sys, f: FenceAction): Db
    requires FenceOk(s, f)
  {
    var d := s.db;
    match f
    case Recheck => d.(attempts := Confirm(d.attempts))
    case VerifyFence => d.(attempts := Confirm(d.attempts))
    case OpenAttempt(attempt) =>
      d.(attempts := d.attempts[attempt := Attempt(s.pc.k, d.ops[s.pc.k].request.id, false)])
    case ConfirmMarker => d.(attempts := d.attempts[s.pc.attempt := d.attempts[s.pc.attempt].(confirmed := true)])
    case FenceFails => Requeue(d, s.pc.k)
    case AnswerAccepted => SetOp(d, s.pc.k, Verifying, d.ops[s.pc.k].reason)
    case AnswerRefused => SetOp(d, s.pc.k, Rejected, "write-refused")
    case AnswerRetry => Requeue(d, s.pc.k)
    case _ => d
  }

  function FencePc(s: Sys, f: FenceAction): Pc
    requires FenceOk(s, f)
  {
    match f
    case VerifyFence => Verified(s.pc.k)
    case OpenAttempt(attempt) => Fencing(s.pc.k, attempt)
    case SendMarker => MarkerSent(s.pc.k, s.pc.attempt)
    case ConfirmMarker => Fenced(s.pc.k, s.pc.attempt)
    case IssuePut => Sent(s.pc.k, s.pc.attempt)
    // A 2xx answer goes straight on to the confirming read.
    case AnswerAccepted => Ready(ForReconcile(s.pc.k), s.db.ops[s.pc.k].request.room)
    case _ => Idle
  }

  function FenceWorld(s: Sys, f: FenceAction): World
    requires FenceOk(s, f)
  {
    var d, w := s.db, s.world;
    match f
    case OpenAttempt(attempt) => w.(used := w.used + {attempt})
    case SendMarker =>
      w.(markersFlying := w.markersFlying
         + {Marker(s.pc.attempt, d.attempts[s.pc.attempt].sequence, d.attempts[s.pc.attempt].op)})
    case IssuePut =>
      w.(flying := w.flying + {Attempting(s, s.pc.k, s.pc.attempt)}, issued := w.issued + {s.pc.attempt})
    // The transport reports these only when the request was positively not applied.
    case AnswerRefused => Withdraw(w, s.pc.attempt)
    case AnswerRetry => Withdraw(w, s.pc.attempt)
    case _ => w
  }

  function Withdraw(w: World, attempt: AttemptId): World {
    w.(flying := set p | p in w.flying && p.attempt != attempt)
  }

  predicate CommandOk(s: Sys, c: CommandAction) {
    var d := s.db;
    && s.pc.Idle?
    && match c
       case PutCommand(command, row) =>
         && command !in d.commands
         && (row.safe ==> row.state.Complete?)
         && (row.state.ApprovalRequired? || row.state.PreparedTicket? || row.state.Complete? || row.state.Refused?)
       case Activate(command, _, _) => command in d.commands && d.commands[command].state.ApprovalRequired?
       case BeginCommit(command) => command in d.commands && d.commands[command].state.PreparedTicket?
       case LinkChild(id) => id.CrmOp? && FindOp(d.ops, id).Some?
       case FinishCommit(command) => command in d.commands && d.commands[command].state.Committing?
       case RecordCancel(command) => command in d.commands
       case SettleCancel(command) =>
         && command in d.commands && d.commands[command].state.Canceling?
         && ChildrenSettled(d, command, d.commands[command].rooms)
       case RefuseCommand(command) =>
         && command in d.commands
         && (d.commands[command].state.Committing? || d.commands[command].state.PreparedTicket?)
       case FinishCommand(command) => command in d.commands && d.commands[command].state.Submitted?
  }

  function SetCommand(d: Db, command: CommandId, state: CommandState, safe: bool): Db
    requires command in d.commands
  {
    d.(commands := d.commands[command := d.commands[command].(state := state, safe := safe)])
  }

  function CommandDb(s: Sys, c: CommandAction): Db
    requires CommandOk(s, c)
  {
    var d := s.db;
    match c
    case PutCommand(command, row) => d.(commands := d.commands[command := row])
    case Activate(command, rooms, revisions) =>
      var row := d.commands[command].(state := Committing, rooms := rooms, revisions := revisions);
      d.(commands := d.commands[command := row])
    case BeginCommit(command) => SetCommand(d, command, Committing, false)
    case LinkChild(id) => if id in d.children then d else d.(children := d.children[id := id.command])
    case FinishCommit(command) => SetCommand(d, command, Submitted, false)
    case RecordCancel(command) => SetCommand(d, command, Canceling, false)
    case SettleCancel(command) => SetCommand(d, command, Complete, true)
    case RefuseCommand(command) => SetCommand(d, command, Refused, false)
    case FinishCommand(command) => SetCommand(d, command, Complete, false)
  }

  predicate ServerOk(w: World, e: ServerAction) {
    match e
    // Other writers do not fabricate this journal's markers: what they store is foreign,
    // or a copy of something the key has held before.
    case ExternalWrite(_, content) => content.Foreign? || EverCommitted(w, content)
    case PutLands(put) => put in w.flying
    case PutDies(put) => put in w.flying
    case MarkerLands(marker) => marker in w.markersFlying
    case MarkerDies(marker) => marker in w.markersFlying
  }

  function ServerWorld(w: World, e: ServerAction): World
    requires ServerOk(w, e)
  {
    match e
    case ExternalWrite(room, content) => w.(remote := w.remote[room := content])
    case PutLands(put) =>
      w.(remote := w.remote[put.room := put.content], flying := w.flying - {put}, committed := w.committed + [put])
    case PutDies(put) => w.(flying := w.flying - {put})
    case MarkerLands(marker) =>
      w.(markers := w.markers + {marker}, markersFlying := w.markersFlying - {marker})
    case MarkerDies(marker) => w.(markersFlying := w.markersFlying - {marker})
  }

  // The server after a stretch of its own; what cannot happen when it is due does not.
  function Blown(w: World, gust: seq<ServerAction>): World {
    if gust == [] then w
    else
      var now, e := Blown(w, gust[..|gust| - 1]), gust[|gust| - 1];
      if ServerOk(now, e) then ServerWorld(now, e) else now
  }

  predicate Enabled(s: Sys, a: Action) {
    match a
    case Journal(j) => JournalOk(s, j)
    case Fence(f) => FenceOk(s, f)
    case Commands(c) => CommandOk(s, c)
    case Server(e) => ServerOk(s.world, e)
    case Crash => true
    case Restore(db) => db in s.saved
  }

  function Save(s: Sys, d: Db, pc: Pc, w: World): Sys {
    Sys(d, pc, w, s.saved + {d})
  }

  function Apply(s: Sys, a: Action): Sys
    requires Enabled(s, a)
  {
    match a
    case Journal(j) => Save(s, JournalDb(s, j), JournalPc(s, j), s.world)
    case Fence(f) => Save(s, FenceDb(s, f), FencePc(s, f), FenceWorld(s, f))
    case Commands(c) => Save(s, CommandDb(s, c), Idle, s.world)
    case Server(e) => s.(world := ServerWorld(s.world, e))
    case Crash => s.(pc := Idle)
    case Restore(db) => s.(db := db, pc := Idle)
  }

  // ------------------------------------------------------------------ runs

  predicate Legal(s: Sys, log: seq<Action>)
    decreases |log|
  {
    log == [] || (Enabled(s, log[0]) && Legal(Apply(s, log[0]), log[1..]))
  }

  function Exec(s: Sys, log: seq<Action>): Sys
    requires Legal(s, log)
    decreases |log|
  {
    if log == [] then s else Exec(Apply(s, log[0]), log[1..])
  }

  ghost predicate Reachable(s: Sys) {
    exists log :: Legal(INITIAL, log) && Exec(INITIAL, log) == s
  }
}

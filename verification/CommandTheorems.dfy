/**
 The prepare/commit/cancel layer over the journal: what a recorded cancel, a result that
 says the membership may change, and a waiting Private request each rule out.
 */
module CommandTheorems {
  import opened PolicyJournal
  import opened JournalInvariants
  import opened JournalTheorems

  predicate ChildOf(op: Op, command: CommandId) {
    op.request.id.CrmOp? && op.request.id.command == command
  }

  // Children exist only for commands that got as far as committing, in the rooms of
  // their ticket; a result that says safe stands for children that all ended.
  ghost predicate CommandsInv(d: Db) {
    && (forall k: nat | k < |d.ops| && d.ops[k].request.id.CrmOp? ::
          var id := d.ops[k].request.id;
          && id.command in d.commands && id.room in d.commands[id.command].rooms
          && id.room == d.ops[k].request.room
          && AsTicketed(d.ops[k].request, d.commands[id.command])
          && !d.commands[id.command].state.ApprovalRequired?
          && !d.commands[id.command].state.PreparedTicket?)
    && (forall id <- d.children :: id.CrmOp? && d.children[id] == id.command)
    && (forall c <- d.commands :: d.commands[c].safe ==>
          d.commands[c].state.Complete?
          && forall k: nat | k < |d.ops| && ChildOf(d.ops[k], c) :: Terminal(d.ops[k].state))
  }

  predicate AboutToWrite(pc: Pc) {
    ((pc.Ready? || pc.Holding? || pc.Seen?) && pc.job.ForWrite?)
    || pc.Writing? || pc.Verified? || pc.Fencing? || pc.MarkerSent? || pc.Fenced?
  }

  function Target(pc: Pc): nat
    requires AboutToWrite(pc)
  {
    if pc.Ready? || pc.Holding? || pc.Seen? then pc.job.k else pc.k
  }

  // The write under way was authorized and nothing has withdrawn that.
  ghost predicate AuthorityInv(s: Sys) {
    AboutToWrite(s.pc) && Target(s.pc) < |s.db.ops| ==> MayWrite(s.db, s.db.ops[Target(s.pc)])
  }

  ghost predicate ControlInv(s: Sys) {
    (forall d <- s.saved :: CommandsInv(d)) && AuthorityInv(s)
  }

  lemma CommandKeepsCommands(s: Sys, c: CommandAction)
    requires CommandsInv(s.db) && CommandOk(s, c)
    ensures CommandsInv(CommandDb(s, c))
  {}

  // Rows of the journal that only move on leave the command layer's tables in order.
  lemma MovingOnKeepsCommands(d: Db, n: Db)
    requires CommandsInv(d) && n.commands == d.commands && n.children == d.children && |n.ops| == |d.ops|
    requires forall k: nat | k < |d.ops| :: GoesOn(d.ops[k], n.ops[k])
    ensures CommandsInv(n)
  {}

  lemma SubmitKeepsCommands(s: Sys, request: Request)
    requires CommandsInv(s.db) && JournalOk(s, Submit(request))
    ensures CommandsInv(JournalDb(s, Submit(request)))
  {}

  lemma ObserveAdds(s: Sys)
    requires JournalOk(s, Observe)
    ensures |JournalDb(s, Observe).ops| == |s.db.ops|
  {
    ObserveShape(s.db, s.pc.room, s.pc.content);
  }

  // Only a submit adds an operation.
  lemma JournalAdds(s: Sys, j: JournalAction)
    requires JournalOk(s, j)
    ensures |JournalDb(s, j).ops| == |s.db.ops| + (if j.Submit? then 1 else 0)
  {
    if j.Observe? {
      ObserveAdds(s);
    }
  }

  lemma JournalKeepsCommands(s: Sys, j: JournalAction)
    requires CommandsInv(s.db) && JobInv(s) && JournalOk(s, j)
    ensures CommandsInv(JournalDb(s, j))
  {
    if j.Submit? {
      SubmitKeepsCommands(s, j.request);
    } else {
      forall k: nat | k < |s.db.ops|
        ensures GoesOn(s.db.ops[k], JournalDb(s, j).ops[k])
      {
        JournalSpares(s, j, k);
      }
      JournalLeavesOthers(s, j);
      JournalAdds(s, j);
      MovingOnKeepsCommands(s.db, JournalDb(s, j));
    }
  }

  lemma FenceKeepsCommands(s: Sys, f: FenceAction)
    requires CommandsInv(s.db) && WriterInv(s) && FenceOk(s, f)
    ensures CommandsInv(FenceDb(s, f))
    ensures FenceDb(s, f).commands == s.db.commands && FenceDb(s, f).children == s.db.children
  {
    forall k: nat | k < |s.db.ops|
      ensures GoesOn(s.db.ops[k], FenceDb(s, f).ops[k])
    {
      FenceSpares(s, f, k);
    }
    MovingOnKeepsCommands(s.db, FenceDb(s, f));
  }

  // An authorization holds for as long as no command and no queued request is added.
  lemma AuthorityHolds(d: Db, n: Db, k: nat)
    requires k < |d.ops| && MayWrite(d, d.ops[k]) && n.commands == d.commands && n.children == d.children
    requires |n.ops| == |d.ops|
    requires forall i: nat | i < |n.ops| ::
               n.ops[i].request == d.ops[i].request && (n.ops[i].state.Queued? ==> d.ops[i].state.Queued?)
    ensures MayWrite(n, n.ops[k])
  {}

  lemma JournalAuthority(s: Sys, j: JournalAction)
    requires AuthorityInv(s) && JournalOk(s, j)
    ensures AuthorityInv(Apply(s, Journal(j)))
  {
    var n := Apply(s, Journal(j));
    if AboutToWrite(n.pc) && !j.Start? && Target(n.pc) < |n.db.ops| {
      if j.Observe? {
        ObserveShape(s.db, s.pc.room, s.pc.content);
      }
      AuthorityHolds(s.db, n.db, Target(s.pc));
    }
  }

  lemma FenceAuthority(s: Sys, f: FenceAction)
    requires AuthorityInv(s) && FenceOk(s, f)
    ensures AuthorityInv(Apply(s, Fence(f)))
  {
    var n := Apply(s, Fence(f));
    if AboutToWrite(n.pc) && Target(n.pc) < |n.db.ops| {
      AuthorityHolds(s.db, n.db, Target(s.pc));
    }
  }

  lemma NextControl(s: Sys, a: Action)
    requires Inv(s) && ControlInv(s) && Enabled(s, a)
    ensures ControlInv(Apply(s, a))
  {
    match a
    case Journal(j) => JournalKeepsCommands(s, j); JournalAuthority(s, j);
    case Fence(f) => FenceKeepsCommands(s, f); FenceAuthority(s, f);
    case Commands(c) => CommandKeepsCommands(s, c);
    case _ =>
  }

  lemma {:induction false} ControlRun(s: Sys, log: seq<Action>)
    requires Inv(s) && ControlInv(s) && Legal(s, log)
    ensures ControlInv(Exec(s, log))
    decreases |log|
  {
    if log != [] {
      NextControl(s, log[0]);
      NextInv(s, log[0]);
      ControlRun(Apply(s, log[0]), log[1..]);
    }
  }

  lemma ReachableControl(s: Sys)
    requires Reachable(s)
    ensures Inv(s) && ControlInv(s)
  {
    var log :| Legal(INITIAL, log) && Exec(INITIAL, log) == s;
    InitialInv();
    ControlRun(INITIAL, log);
    ReachableInv(s);
  }

  // ------------------------------------------------------------------ cancellation

  predicate Withdrawn(s: Sys, command: CommandId) {
    command in s.db.commands && s.db.commands[command].state in {Canceling, Complete, Refused}
  }

  lemma FenceLeavesCommands(s: Sys, f: FenceAction)
    requires FenceOk(s, f)
    ensures FenceDb(s, f).commands == s.db.commands
  {}

  lemma WithdrawnCommand(s: Sys, c: CommandAction, command: CommandId)
    requires Withdrawn(s, command) && CommandOk(s, c)
    ensures command in CommandDb(s, c).commands
    ensures CommandDb(s, c).commands[command].state in {Canceling, Complete, Refused}
  {}

  lemma WithdrawnStep(s: Sys, a: Action, command: CommandId)
    requires Withdrawn(s, command) && Enabled(s, a) && !a.Restore?
    ensures Withdrawn(Apply(s, a), command)
  {
    hide JournalOk, JournalDb, FenceOk, FenceDb, CommandOk, CommandDb;
    match a
    case Journal(j) => JournalLeavesOthers(s, j);
    case Fence(f) => FenceLeavesCommands(s, f);
    case Commands(c) => WithdrawnCommand(s, c, command);
    case _ =>
  }

  predicate Creates(a: Action, command: CommandId) {
    a.Journal? && a.j.Submit? && a.j.request.id.CrmOp? && a.j.request.id.command == command
  }

  // No policy write of a withdrawn command starts, and none of its operations is added.
  lemma WithdrawnIsBarred(s: Sys, a: Action, command: CommandId)
    requires Inv(s) && ControlInv(s) && Withdrawn(s, command) && Enabled(s, a)
    ensures Issues(a) ==> !ChildOf(s.db.ops[s.pc.k], command)
    ensures !Creates(a, command)
  {
    if Issues(a) {
      assert MayWrite(s.db, s.db.ops[Target(s.pc)]);
    }
  }

  // Once a cancel is recorded for a command, in no later step, short of a restore, does
  // a policy write of one of its operations start, nor is one of them created.
  lemma {:induction false} CanceledCommandStaysSilent(s: Sys, log: seq<Action>, command: CommandId, i: nat)
    requires Reachable(s) && Withdrawn(s, command) && Legal(s, log) && NoRestore(log) && i < |log|
    ensures Legal(s, log[..i])
    ensures var t := Exec(s, log[..i]);
            && Enabled(t, log[i]) && Withdrawn(t, command)
            && (Issues(log[i]) ==> !ChildOf(t.db.ops[t.pc.k], command))
            && !Creates(log[i], command)
    decreases i
  {
    if i == 0 {
      ReachableControl(s);
      WithdrawnIsBarred(s, log[0], command);
    } else {
      ReachableStep(s, log[0]);
      WithdrawnStep(s, log[0], command);
      CanceledCommandStaysSilent(Apply(s, log[0]), log[1..], command, i - 1);
      assert log[..i][1..] == log[1..][..i - 1];
    }
  }

  // A result that says it is safe to change the membership means that every operation of
  // the command has ended.
  lemma SafeMeansEnded(s: Sys, command: CommandId, k: nat)
    requires Reachable(s) && command in s.db.commands && s.db.commands[command].safe
    requires k < |s.db.ops| && ChildOf(s.db.ops[k], command)
    ensures Terminal(s.db.ops[k].state) && Withdrawn(s, command)
  {
    ReachableControl(s);
  }

  lemma Added(s: Sys, a: Action, k: nat)
    requires Enabled(s, a) && !a.Restore? && |s.db.ops| <= k < |Apply(s, a).db.ops|
    ensures a.Journal? && a.j.Submit? && Apply(s, a).db.ops[k].request == a.j.request
  {
    match a
    case Journal(j) => JournalAdds(s, j);
    case _ =>
  }

  // ... and, short of a restore, no later run has any other.
  lemma {:induction false} SafeStaysSafe(s: Sys, log: seq<Action>, command: CommandId, k: nat)
    requires Reachable(s) && Legal(s, log) && NoRestore(log) && Withdrawn(s, command)
    requires forall j: nat | j < |s.db.ops| && ChildOf(s.db.ops[j], command) :: Terminal(s.db.ops[j].state)
    requires k < |Exec(s, log).db.ops| && ChildOf(Exec(s, log).db.ops[k], command)
    ensures k < |s.db.ops| && Exec(s, log).db.ops[k] == s.db.ops[k]
    decreases |log|
  {
    if log != [] {
      var a, n := log[0], Apply(s, log[0]);
      ReachableControl(s);
      ReachableStep(s, a);
      WithdrawnStep(s, a, command);
      forall j: nat | j < |n.db.ops| && ChildOf(n.db.ops[j], command)
        ensures j < |s.db.ops| && n.db.ops[j] == s.db.ops[j]
      {
        if j >= |s.db.ops| {
          Added(s, a, j);
          WithdrawnIsBarred(s, a, command);
        } else {
          FinishedStays(s, a, j);
        }
      }
      SafeStaysSafe(n, log[1..], command, k);
    }
  }

  // Every operation of a command grants Direct, and nothing else; it names the revision of
  // its room in the command's ticket, and the command's membership.
  lemma ChildrenGrantDirect(s: Sys, k: nat)
    requires Reachable(s) && k < |s.db.ops| && s.db.ops[k].request.id.CrmOp?
    ensures s.db.ops[k].request.id.command in s.db.commands
    ensures var request, row := s.db.ops[k].request, s.db.commands[s.db.ops[k].request.id.command];
      && request.id.room == request.room && request.room in row.rooms
      && request.level == Direct && request.room in row.revisions && request.expected == row.revisions[request.room]
      && request.binding == row.binding && request.membership == row.membership
  {
    ReachableControl(s);
  }

  // A grant is written only as a linked operation of a command that is neither being canceled
  // nor over, and not while a manual Private request waits in its room.
  lemma PrivateWins(s: Sys)
    requires Reachable(s) && FenceOk(s, IssuePut) && s.db.ops[s.pc.k].request.id.CrmOp?
    ensures var request := s.db.ops[s.pc.k].request;
      && request.level == Direct
      && request.id in s.db.children && s.db.children[request.id] == request.id.command
      && request.id.command in s.db.commands
      && s.db.commands[request.id.command].state !in {Canceling, Complete, Refused}
      && forall j | 0 <= j < |s.db.ops| && s.db.ops[j].request.room == request.room && s.db.ops[j].state == Queued ::
           !(s.db.ops[j].request.id.ManualOp? && s.db.ops[j].request.level == Private)
  {
    ReachableControl(s);
    assert MayWrite(s.db, s.db.ops[Target(s.pc)]);
  }
}

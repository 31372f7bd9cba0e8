/**
 The typed prepare/commit/cancel commands over the journal. A commit queues one operation
 per room of its ticket; a cancel first records itself and only then touches them.
 */
module CrmControl {
  import opened Wrappers
  import opened PolicyJournal
  import opened JournalInvariants
  import opened CommandTheorems
  import ConsentJournal

  class Control {
    const journal: ConsentJournal.Journal

    constructor (journal: ConsentJournal.Journal)
      ensures this.journal == journal
    {
      this.journal := journal;
    }

    // Freezes the rooms and revisions a later commit may use. A command id is used once.
    method Prepare(command: CommandId, row: Command) returns (stored: Command)
      requires journal.Valid() && row.state.PreparedTicket? && !row.safe
      modifies journal`commands, journal`sys
      ensures journal.Valid() && command in journal.commands && journal.commands[command] == stored
      ensures command in old(journal.commands) ==> journal.commands == old(journal.commands)
      ensures command !in old(journal.commands) ==> journal.commands == old(journal.commands)[command := row]
    {
      if command !in journal.commands {
        journal.commands := journal.commands[command := row];
        journal.Advance(Commands(PutCommand(command, row)));
      }
      return journal.commands[command];
    }

    function ChildRequest(command: CommandId, room: RoomId): Request
      requires command in journal.commands && room in journal.commands[command].revisions
      reads journal
    {
      var row := journal.commands[command];
      Request(CrmOp(command, room), journal.authority.manager, journal.authority, room,
              row.revisions[room], Direct, row.binding, row.membership)
    }

    // Commits a prepared ticket whose rooms are still the contact's; anything later than
    // prepared only reports what it is. The outside says whether it is timely and the link
    // active, which rooms the contact is in now (None: no evidence), and whether the request
    // names the ticket, not expired.
    method Commit(command: CommandId, timely: bool, scope: Option<seq<RoomId>>, ticketMatches: bool)
      returns (r: Result<CommandState, string>)
      requires journal.Valid()
      requires command in journal.commands ==>
                 forall room <- journal.commands[command].rooms :: room in journal.commands[command].revisions
      modifies journal`ops, journal`commands, journal`children, journal`sys
      ensures journal.Valid() && old(journal.ops) <= journal.ops
      ensures r.Ok? ==> command in journal.commands && r.value == journal.commands[command].state
      ensures var known := command in old(journal.commands);
              if known && !old(journal.commands)[command].state.PreparedTicket? then
                r == Ok(old(journal.commands)[command].state) && journal.Tables() == old(journal.Tables())
              else if !(known && timely && ticketMatches && scope == Some(old(journal.commands)[command].rooms)) then
                r.Err? && journal.Tables() == old(journal.Tables())
              else
                && (r.Ok? <==> forall room <- scope.value :: old(CanQueue(command, room)))
                && (r.Ok? ==> r.value.Submitted? && forall room <- scope.value ::
                      Queues(command, old(journal.commands)[command], room))
                && journal.commands == old(journal.commands)[command :=
                     old(journal.commands)[command].(state := if r.Ok? then Submitted else Committing, safe := false)]
    {
      if command in journal.commands && !journal.commands[command].state.PreparedTicket? {
        return Ok(journal.commands[command].state);
      }
      if !timely {
        return Err("stale-direct-request");
      }
      if scope.None? {
        return Err("contact-evidence-unavailable");
      }
      if command !in journal.commands {
        return Err("missing-prepare");
      }
      if !ticketMatches {
        return Err("expired-or-wrong-ticket");
      }
      if scope.value != journal.commands[command].rooms {
        return Err("contact-scope-changed");
      }
      journal.commands := journal.commands[command := journal.commands[command].(state := Committing, safe := false)];
      journal.Advance(Commands(BeginCommit(command)));
      r := QueueCommit(command);
    }

    // The operation of one room is there and linked: it grants Direct in that room, at the
    // revision of the ticket, for the ticket's binding and membership.
    predicate Queues(command: CommandId, row: Command, room: RoomId)
      reads journal
    {
      && CrmOp(command, room) in journal.children
      && FindOp(journal.ops, CrmOp(command, room)).Some?
      && var request := journal.ops[FindOp(journal.ops, CrmOp(command, room)).value].request;
      && request.room == room && request.level == Direct
      && room in row.revisions && request.expected == row.revisions[room]
      && request.binding == row.binding && request.membership == row.membership
      && request.actor == journal.authority.manager && request.authority == journal.authority
    }

    // One room of a commit: the operation, and the row that ties it to its command.
    method QueueOne(command: CommandId, room: RoomId) returns (r: Result<nat, string>)
      requires journal.Valid() && command in journal.commands && journal.commands[command].state.Committing?
      requires room in journal.commands[command].rooms && room in journal.commands[command].revisions
      modifies journal`ops, journal`children, journal`sys
      ensures journal.Valid() && old(journal.ops) <= journal.ops
      ensures forall id <- old(journal.children) :: id in journal.children
      ensures r.Ok? ==> Queues(command, old(journal.commands)[command], room)
      ensures r.Ok? <==> old(CanQueue(command, room))
      ensures forall other :: CanQueue(command, other) <==> old(CanQueue(command, other))
    {
      var id := CrmOp(command, room);
      AsTicketedBefore(command, room);
      assert FindOp(journal.ops, id).Some? ==>
               (journal.ops[FindOp(journal.ops, id).value].request == ChildRequest(command, room)
                <==> CanQueue(command, room));
      ghost var before := journal.ops;
      r := journal.Submit(ChildRequest(command, room));
      forall other ensures CanQueue(command, other) <==> old(CanQueue(command, other)) {
        QueuedElsewhere(before, journal.ops, CrmOp(command, other));
      }
      if r.Ok? {
        assert journal.ops[r.value].request.id == id;
        if id !in journal.children {
          journal.children := journal.children[id := command];
        }
        journal.Advance(Commands(LinkChild(id)));
      }
    }

    // The room has been observed, or has its operation, made by the present pairing.
    predicate CanQueue(command: CommandId, room: RoomId)
      reads journal
    {
      var found := FindOp(journal.ops, CrmOp(command, room));
      if found.None? then room in journal.rooms
      else
        var request := journal.ops[found.value].request;
        request.actor == journal.authority.manager && request.authority == journal.authority
    }

    // An operation of a command is as the ticket says.
    lemma AsTicketedBefore(command: CommandId, room: RoomId)
      requires journal.Valid() && command in journal.commands
      ensures var found := FindOp(journal.ops, CrmOp(command, room));
        found.Some? ==>
          && journal.ops[found.value].request.room == room
          && AsTicketed(journal.ops[found.value].request, journal.commands[command])
    {
      ReachableControl(journal.sys);
    }

    lemma QueuedElsewhere(before: seq<Op>, after: seq<Op>, id: OpId)
      requires before <= after
      ensures FindOp(before, id).Some? ==> FindOp(after, id) == FindOp(before, id)
      ensures FindOp(before, id).None? && FindOp(after, id).Some? ==> |before| <= FindOp(after, id).value
    {
      if FindOp(before, id).Some? {
        FoundStays(before, after, id);
      }
    }

    // Also the recovery path: a commit cut short goes on with the rooms not yet queued.
    // On success every room of the ticket has its operation, and each is linked.
    method QueueCommit(command: CommandId) returns (r: Result<CommandState, string>)
      requires journal.Valid() && command in journal.commands
      requires forall room <- journal.commands[command].rooms :: room in journal.commands[command].revisions
      modifies journal`ops, journal`commands, journal`children, journal`sys
      ensures journal.Valid() && old(journal.ops) <= journal.ops
      ensures r.Ok? ==> r.value.Submitted?
      ensures r == Ok(Submitted) ==>
                && old(journal.commands)[command].state.Committing?
                && journal.commands == old(journal.commands)[command :=
                     old(journal.commands)[command].(state := Submitted, safe := false)]
                && forall room <- old(journal.commands)[command].rooms ::
                     Queues(command, old(journal.commands)[command], room)
      ensures r != Ok(Submitted) ==> journal.commands == old(journal.commands)
      ensures r.Ok? <==>
                && old(journal.commands)[command].state.Committing?
                && forall room <- old(journal.commands)[command].rooms :: old(CanQueue(command, room))
    {
      var row := journal.commands[command];
      if !row.state.Committing? {
        return Err("not-committing");
      }
      for i := 0 to |row.rooms|
        invariant journal.Valid() && old(journal.ops) <= journal.ops && journal.commands == old(journal.commands)
        invariant forall x: nat | x < i :: Queues(command, row, row.rooms[x]) && old(CanQueue(command, row.rooms[x]))
        invariant forall room :: CanQueue(command, room) <==> old(CanQueue(command, room))
      {
        ghost var before := journal.ops;
        var queued := QueueOne(command, row.rooms[i]);
        if queued.Err? {
          return Err(queued.error);
        }
        forall x: nat | x <= i
          ensures Queues(command, row, row.rooms[x])
        {
          if x < i {
            FoundStays(before, journal.ops, CrmOp(command, row.rooms[x]));
          }
        }
      }
      journal.commands := journal.commands[command := row.(state := Submitted, safe := false)];
      journal.Advance(Commands(FinishCommit(command)));
      return Ok(Submitted);
    }

    lemma FoundStays(before: seq<Op>, after: seq<Op>, id: OpId)
      requires before <= after && FindOp(before, id).Some?
      ensures FindOp(after, id) == FindOp(before, id)
    {
      assert after[FindOp(before, id).value].request.id == id;
      assert forall j | 0 <= j < FindOp(before, id).value :: after[j] == before[j];
    }

    // Records the cancel before any of the command's operations is touched, then cancels
    // those never attempted. The result says whether the membership may change.
    method Cancel(command: CommandId, row: Command) returns (safe: bool)
      requires journal.Valid() && row.state.Complete? && row.safe
      modifies journal`ops, journal`commands, journal`sys
      ensures journal.Valid() && command in journal.commands
      ensures journal.commands[command].state in {Canceling, Complete, CommandState.Refused}
      ensures safe == journal.commands[command].safe
      ensures safe <==> forall k: nat | k < |journal.ops| && ChildOf(journal.ops[k], command) ::
                Terminal(journal.ops[k].state)
      ensures forall k: nat | k < |journal.ops| && ChildOf(journal.ops[k], command) :: !journal.ops[k].state.Queued?
    {
      ReachableControl(journal.sys);
      if command !in journal.commands {
        journal.commands := journal.commands[command := row];
        journal.Advance(Commands(PutCommand(command, row)));
        return true;
      }
      var rooms := journal.commands[command].rooms;
      journal.commands := journal.commands[command := journal.commands[command].(state := Canceling, safe := false)];
      journal.Advance(Commands(RecordCancel(command)));
      safe := CancelCommit(command);
      ReachableControl(journal.sys);
      ByRoom(command, rooms);
    }

    // Every operation of a command is in a room of its ticket.
    lemma ByRoom(command: CommandId, rooms: seq<RoomId>)
      requires CommandsInv(journal.Tables())
      requires command in journal.commands && journal.commands[command].rooms == rooms
      ensures (forall room <- rooms :: Ended(command, room)) <==>
              forall k: nat | k < |journal.ops| && ChildOf(journal.ops[k], command) :: Terminal(journal.ops[k].state)
      ensures (forall room <- rooms :: Unqueued(command, room)) ==>
              forall k: nat | k < |journal.ops| && ChildOf(journal.ops[k], command) :: !journal.ops[k].state.Queued?
    {
      forall k: nat | k < |journal.ops| && ChildOf(journal.ops[k], command)
        ensures journal.ops[k].request.id.room in rooms
        ensures journal.ops[k].request.id == CrmOp(command, journal.ops[k].request.id.room)
      {
        assert journal.Tables().ops[k] == journal.ops[k];
      }
    }

    ghost predicate Ended(command: CommandId, room: RoomId)
      reads journal
    {
      forall k: nat | k < |journal.ops| && journal.ops[k].request.id == CrmOp(command, room) ::
        Terminal(journal.ops[k].state)
    }

    ghost predicate Unqueued(command: CommandId, room: RoomId)
      reads journal
    {
      forall k: nat | k < |journal.ops| && journal.ops[k].request.id == CrmOp(command, room) ::
        !journal.ops[k].state.Queued?
    }

    // One room of a cancel: only an operation that was never attempted is canceled.
    method CancelOne(command: CommandId, room: RoomId) returns (ended: bool)
      requires journal.Valid()
      modifies journal`ops, journal`sys
      ensures journal.Valid()
      ensures ended <==> Ended(command, room)
      ensures Unqueued(command, room)
      ensures forall other | other != room && old(Unqueued(command, other)) :: Unqueued(command, other)
      ensures forall other | other != room || old(Unqueued(command, room)) ::
                Ended(command, other) <==> old(Ended(command, other))
    {
      ReachableInv(journal.sys);
      assert UniqueIds(journal.Tables());
      hide Inv, Reachable;
      var found := journal.CancelCrm(CrmOp(command, room));
      ended := found.None? || Terminal(found.value);
      assert forall k: nat | k < |journal.ops| :: journal.ops[k].request == old(journal.ops)[k].request;
    }

    method CancelCommit(command: CommandId) returns (safe: bool)
      requires journal.Valid() && command in journal.commands && journal.commands[command].state.Canceling?
      requires !journal.commands[command].safe
      modifies journal`ops, journal`commands, journal`sys
      ensures journal.Valid() && command in journal.commands
      ensures journal.commands[command].state in {Canceling, Complete, CommandState.Refused}
      ensures safe == journal.commands[command].safe
      ensures journal.commands[command].rooms == old(journal.commands)[command].rooms
      ensures safe <==> forall room <- old(journal.commands)[command].rooms :: Ended(command, room)
      ensures forall room <- old(journal.commands)[command].rooms :: Unqueued(command, room)
    {
      var rooms := journal.commands[command].rooms;
      safe := true;
      for i := 0 to |rooms|
        invariant journal.Valid() && journal.commands == old(journal.commands)
        invariant safe <==> forall x: nat | x < i :: Ended(command, rooms[x])
        invariant forall x: nat | x < i :: Unqueued(command, rooms[x])
      {
        var ended := CancelOne(command, rooms[i]);
        safe := safe && ended;
      }
      if safe {
        assert ChildrenSettled(journal.Tables(), command, rooms);
        journal.commands := journal.commands[command := journal.commands[command].(state := Complete, safe := true)];
        journal.Advance(Commands(SettleCancel(command)));
      }
    }
  }
}

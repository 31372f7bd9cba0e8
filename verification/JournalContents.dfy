/**
 What the policy writes say and what stands behind the fence: the content on its way to a
 room is what was requested for it, and every PUT starts behind markers of all attempts.
 */
module JournalContents {
  import opened Wrappers
  import opened PolicyJournal
  import opened JournalInvariants
  import opened JournalTheorems

  // ------------------------------------------------------------------ what is written

  // An operation that was attempted has stored its own marker, at the level and one revision
  // above what was requested; a grant under the authority it was made by.
  lemma StoredIsRequested(s: Sys, k: nat)
    requires Reachable(s) && k < |s.db.ops| && Attempted(s.db.ops[k].state)
    ensures var request, stored := s.db.ops[k].request, s.db.ops[k].intended;
      && stored.Some? && stored.value.Marked?
      && stored.value.op == request.id && stored.value.level == request.level
      && stored.value.revision == request.expected + 1 <= 9007199254740990
      && (request.id.CrmOp? ==>
            stored.value.owner == request.authority.owner && stored.value.generation == request.authority.generation)
  {
    ReachableInv(s);
  }

  // It is stored under the authority of the journal that writes.
  lemma StoredUnder(s: Sys, under: Authority)
    requires JournalOk(s, Prepare(under))
    ensures var op := JournalDb(s, Prepare(under)).ops[s.pc.job.k];
      && op.state.Prepared? && op.intended.Some? && op.intended.value.Marked?
      && op.intended.value.owner == under.owner && op.intended.value.generation == under.generation
      && op.previous == Some(s.pc.content)
  {}

  // The PUT that starts goes to the room of the request and carries what was requested.
  lemma IssuedIsRequested(s: Sys, p: Put)
    requires Reachable(s) && FenceOk(s, IssuePut)
    requires p in FenceWorld(s, IssuePut).flying && p !in s.world.flying
    ensures var request := s.db.ops[s.pc.k].request;
      && p.room == request.room && p.op == request.id && p.sequence == s.pc.k && p.attempt == s.pc.attempt
      && p.content.Marked? && p.content.op == request.id && p.content.level == request.level
      && p.content.revision == request.expected + 1
  {
    ReachableInv(s);
  }

  // A PUT under way carries what the operation it was sent for asks, to its room.
  lemma SentCarries(s: Sys, p: Put)
    requires Reachable(s) && s.pc.Sent? && Alive(s.world, p) && p.attempt == s.pc.attempt
    ensures s.pc.k < |s.db.ops| && p.op == s.db.ops[s.pc.k].request.id && p.room == s.db.ops[s.pc.k].request.room
    ensures Carries(s.db.ops[s.pc.k].request, p.content)
  {
    ReachableInv(s);
  }

  // Every PUT that committed for an applied operation carried what was requested.
  lemma AppliedIsRequested(s: Sys, k: nat, p: Put)
    requires Reachable(s) && k < |s.db.ops| && s.db.ops[k].state.Applied?
    requires p in s.world.committed && p.op == s.db.ops[k].request.id
    ensures var request := s.db.ops[k].request;
      && p.content.Marked? && p.content.op == request.id && p.content.level == request.level
      && p.content.revision == request.expected + 1
      && (p.attempt in s.db.attempts ==> p.room == request.room)
  {
    ReachableInv(s);
    AppliedMeansCommitted(s, k);
    StoredIsRequested(s, k);
    var c := s.db.ops[k].intended.value;
    var i :| 0 <= i < |s.world.committed| && s.world.committed[i].content == c;
    assert Alive(s.world, s.world.committed[i]) && Alive(s.world, p);
  }

  // ------------------------------------------------------------------ what each step leaves

  // An operation waits, is being written, or has ended.
  lemma StatesAre(state: OpState)
    ensures InWrite(state) <==> state == Prepared || state == Verifying
    ensures Terminal(state) <==> state == Applied || state == Rejected || state == Canceled || state == OutcomeUnknown
    ensures Attempted(state) <==> InWrite(state) || state == Applied || state == OutcomeUnknown
  {}

  // A room is first seen at revision 0; the same content again changes nothing; any other takes
  // it one revision on, until revisions run out.
  lemma RevisionAfter(d: Db, room: RoomId, content: Content)
    ensures room !in d.rooms ==> ObserveDb(d, room, content) == Some(d.(rooms := d.rooms[room := Room(0, content)]))
    ensures room in d.rooms && d.rooms[room].observed == content ==> ObserveDb(d, room, content) == Some(d)
    ensures room in d.rooms && d.rooms[room].observed != content ==>
              && (ObserveDb(d, room, content).None? <==> d.rooms[room].revision >= 9007199254740990)
              && (ObserveDb(d, room, content).Some? ==>
                    ObserveDb(d, room, content).value.rooms
                    == d.rooms[room := Room(d.rooms[room].revision + 1, content)])
  {
    hide FirstInWrite;
  }

  // An observation of its marker ends the write of the room: as applied if the room is as it
  // was read and at the revision aimed at, else for review. It changes no other operation.
  lemma ObservationEnds(d: Db, k: nat, content: Content)
    requires HeadOfLine(d) && k < |d.ops| && InWrite(d.ops[k].state) && d.ops[k].request.room in d.rooms
    requires ObserveDb(d, d.ops[k].request.room, content).Some?
    ensures var op, row := d.ops[k], d.rooms[d.ops[k].request.room];
      ObserveDb(d, op.request.room, content).value.ops ==
        if content == row.observed || op.intended != Some(content) then d.ops
        else if op.resulting == Some(row.revision + 1) && op.previous == Some(row.observed) then
          d.ops[k := op.(state := Applied, reason := "")]
        else d.ops[k := op.(state := OutcomeUnknown, reason := "superseded-write-confirmed")]
  {
    OnlyWrite(d, k);
    ObservedAt(d, k, content);
    hide ObserveDb, FirstInWrite, HeadOfLine;
  }

  // Where nothing is being written an observation changes no operation.
  lemma ObservationSpares(d: Db, room: RoomId, content: Content)
    requires ObserveDb(d, room, content).Some?
    requires forall k: nat | k < |d.ops| && d.ops[k].request.room == room :: !InWrite(d.ops[k].state)
    ensures ObserveDb(d, room, content).value.ops == d.ops
  {}

  // What was positively not applied waits again, as it was before it was prepared.
  lemma RetryWaits(d: Db, k: nat)
    requires k < |d.ops|
    ensures var op := Requeue(d, k).ops[k];
      && op.state == Queued && op.intended == None && op.resulting == None && op.previous == None
      && op.request == d.ops[k].request && op.reason == "write-retryable"
    ensures Requeue(d, k) == d.(ops := d.ops[k := Requeue(d, k).ops[k]])
  {}

  // A judgement without the marker keeps the barrier of a PUT that may still commit, and puts
  // one that completed unconfirmed up for review.
  lemma JudgedIs(d: Db, k: nat)
    requires k < |d.ops|
    ensures JudgeDb(d, k) == d.(ops := d.ops[k := JudgeDb(d, k).ops[k]])
    ensures d.ops[k].state == Prepared ==>
              JudgeDb(d, k).ops[k] == d.ops[k].(reason := "write-unresolved-ordering-blocked")
    ensures d.ops[k].state == Verifying ==>
              JudgeDb(d, k).ops[k] == d.ops[k].(state := OutcomeUnknown, reason := "write-not-confirmed-review-required")
    ensures d.ops[k].state != Prepared && d.ops[k].state != Verifying ==> JudgeDb(d, k) == d
  {}

  // What the confirming read makes of a write that was just prepared and answered with a 2xx.
  lemma AcceptedEnds(d: Db, k: nat, content: Content)
    requires HeadOfLine(d) && k < |d.ops| && d.ops[k].state.Verifying? && d.ops[k].request.room in d.rooms
    requires var op, row := d.ops[k], d.rooms[d.ops[k].request.room];
      && op.resulting == Some(row.revision + 1) && op.previous == Some(row.observed)
      && row.revision + 1 < MAX_REVISION
    ensures Reconciled(d, k, content).Some?
    ensures var op, n := d.ops[k], Reconciled(d, k, content).value;
      |n.ops| == |d.ops| && n.ops[k] ==
        if content != d.rooms[op.request.room].observed && op.intended == Some(content) then
          op.(state := Applied, reason := "")
        else op.(state := OutcomeUnknown, reason := "write-not-confirmed-review-required")
  {
    hide ObserveDb, HeadOfLine, FirstInWrite;
    RevisionAfter(d, d.ops[k].request.room, content);
    ObservationEnds(d, k, content);
  }

  // ------------------------------------------------------------------ what stands behind the fence

  // A marker and a row tell of the same attempt in the same way.
  predicate SameAttempt(row: Attempt, m: Marker) {
    row.sequence == m.sequence && row.op == m.op
  }

  predicate Known(w: World, m: Marker) {
    m in w.markers || m in w.markersFlying
  }

  // Whatever any database says of an attempt agrees with its marker and with any other; what
  // it says is confirmed is on the server.
  ghost predicate AttemptsAgree(s: Sys) {
    && (forall m | Known(s.world, m) :: m.attempt in s.world.used)
    && (forall d, m | d in s.saved && Known(s.world, m) && m.attempt in d.attempts ::
          SameAttempt(d.attempts[m.attempt], m))
    && (forall d, e, a | d in s.saved && e in s.saved && a in d.attempts && a in e.attempts ::
          d.attempts[a].sequence == e.attempts[a].sequence && d.attempts[a].op == e.attempts[a].op)
    && (forall d <- s.saved :: ConfirmedStand(d, s.world))
  }

  ghost predicate ConfirmedStand(d: Db, w: World) {
    forall a <- d.attempts | d.attempts[a].confirmed ::
      Marker(a, d.attempts[a].sequence, d.attempts[a].op) in w.markers
  }

  // Attempt a has its marker on the server.
  predicate OnServer(s: Sys, a: AttemptId)
    requires a in s.db.attempts
  {
    Marker(a, s.db.attempts[a].sequence, s.db.attempts[a].op) in s.world.markers
  }

  predicate BehindCheck(pc: Pc) {
    pc.Verified? || pc.Fencing? || pc.MarkerSent? || pc.Fenced?
  }

  // Since the check all attempts but the one being opened are on the server.
  ghost predicate CheckedInv(s: Sys) {
    BehindCheck(s.pc) ==>
      forall a <- s.db.attempts :: (s.pc.Verified? || s.pc.Fenced? || a != s.pc.attempt) ==> OnServer(s, a)
  }

  lemma ServerAgrees(s: Sys, e: ServerAction)
    requires AttemptsAgree(s) && CheckedInv(s) && ServerOk(s.world, e)
    ensures AttemptsAgree(Apply(s, Server(e))) && CheckedInv(Apply(s, Server(e)))
  {
    var n := Apply(s, Server(e));
    assert forall m | Known(n.world, m) :: Known(s.world, m);
  }

  // A new database whose attempts are those of the present one.
  lemma SameAttemptsAgree(s: Sys, n: Sys)
    requires Inv(s) && AttemptsAgree(s) && n.saved == s.saved + {n.db} && n.world.used == s.world.used
    requires forall m | Known(n.world, m) :: Known(s.world, m)
    requires n.db.attempts.Keys == s.db.attempts.Keys
    requires forall a <- s.db.attempts ::
               n.db.attempts[a].sequence == s.db.attempts[a].sequence && n.db.attempts[a].op == s.db.attempts[a].op
    requires n.world.markers == s.world.markers
    requires forall a <- s.db.attempts | n.db.attempts[a].confirmed && !s.db.attempts[a].confirmed :: OnServer(s, a)
    ensures AttemptsAgree(n)
  {}

  lemma OpenAgrees(s: Sys, attempt: AttemptId)
    requires Inv(s) && AttemptsAgree(s) && FenceOk(s, OpenAttempt(attempt))
    ensures AttemptsAgree(Apply(s, Fence(OpenAttempt(attempt))))
  {
    var n := Apply(s, Fence(OpenAttempt(attempt)));
    forall d | d in s.saved ensures attempt !in d.attempts {
      assert Tracks(d, s.world);
    }
    SameOthers(s, n, attempt);
  }

  lemma SameOthers(s: Sys, n: Sys, attempt: AttemptId)
    requires AttemptsAgree(s) && s.db in s.saved && n.saved == s.saved + {n.db}
    requires n.world.markers == s.world.markers && n.world.markersFlying == s.world.markersFlying
    requires s.world.used <= n.world.used && attempt !in s.world.used
    requires forall d | d in s.saved :: attempt !in d.attempts
    requires n.db.attempts.Keys == s.db.attempts.Keys + {attempt}
    requires forall a <- s.db.attempts :: n.db.attempts[a] == s.db.attempts[a]
    requires !n.db.attempts[attempt].confirmed
    ensures AttemptsAgree(n)
  {
    forall m | Known(n.world, m) ensures Known(s.world, m) && m.attempt != attempt {}
  }

  lemma SendAgrees(s: Sys)
    requires Inv(s) && AttemptsAgree(s) && FenceOk(s, SendMarker)
    ensures AttemptsAgree(Apply(s, Fence(SendMarker)))
  {
    var n := Apply(s, Fence(SendMarker));
    var row := s.db.attempts[s.pc.attempt];
    var m := Marker(s.pc.attempt, row.sequence, row.op);
    assert s.pc.attempt in s.world.used by {
      assert Tracks(s.db, s.world);
    }
    assert n.saved == s.saved;
    forall x | Known(n.world, x) ensures x == m || Known(s.world, x) {}
  }

  lemma FenceAgrees(s: Sys, f: FenceAction)
    requires Inv(s) && AttemptsAgree(s) && FenceOk(s, f)
    ensures AttemptsAgree(Apply(s, Fence(f)))
  {
    if f.OpenAttempt? {
      OpenAgrees(s, f.attempt);
    } else if f.SendMarker? {
      SendAgrees(s);
    } else {
      SameAttemptsAgree(s, Apply(s, Fence(f)));
    }
  }

  lemma FenceChecked(s: Sys, f: FenceAction)
    requires CheckedInv(s) && FenceOk(s, f)
    ensures CheckedInv(Apply(s, Fence(f)))
  {
    var n := Apply(s, Fence(f));
    if BehindCheck(n.pc) {
      forall a <- n.db.attempts | n.pc.Verified? || n.pc.Fenced? || a != n.pc.attempt
        ensures OnServer(n, a)
      {
        if a in s.db.attempts && !f.VerifyFence? && !(f.ConfirmMarker? && a == s.pc.attempt) {
          assert OnServer(s, a);
        }
      }
    }
  }

  lemma NextFence(s: Sys, a: Action)
    requires Inv(s) && AttemptsAgree(s) && CheckedInv(s) && Enabled(s, a)
    ensures AttemptsAgree(Apply(s, a)) && CheckedInv(Apply(s, a))
  {
    match a
    case Journal(j) =>
      JournalAttempts(s, j);
      SameAttemptsAgree(s, Apply(s, a));
    case Fence(f) =>
      FenceAgrees(s, f);
      FenceChecked(s, f);
    case Commands(c) => SameAttemptsAgree(s, Apply(s, a));
    case Server(e) => ServerAgrees(s, e);
    case _ =>
  }

  lemma JournalAttempts(s: Sys, j: JournalAction)
    requires JournalOk(s, j)
    ensures JournalDb(s, j).attempts == s.db.attempts && !BehindCheck(JournalPc(s, j))
  {
    JournalLeavesOthers(s, j);
    hide JournalDb;
  }

  lemma {:induction false} FenceRun(s: Sys, log: seq<Action>)
    requires Inv(s) && AttemptsAgree(s) && CheckedInv(s) && Legal(s, log)
    ensures AttemptsAgree(Exec(s, log)) && CheckedInv(Exec(s, log))
    decreases |log|
  {
    if log != [] {
      NextFence(s, log[0]);
      NextInv(s, log[0]);
      FenceRun(Apply(s, log[0]), log[1..]);
    }
  }

  lemma ReachableFence(s: Sys)
    requires Reachable(s)
    ensures Inv(s) && AttemptsAgree(s) && CheckedInv(s)
  {
    var log :| Legal(INITIAL, log) && Exec(INITIAL, log) == s;
    InitialInv();
    FenceRun(INITIAL, log);
    ReachableInv(s);
  }

  // When a policy PUT starts, each local attempt has exactly its marker on the server. Each
  // marker there is that of a local attempt, or of one under which no PUT was ever issued.
  lemma IssueIsFenced(s: Sys)
    requires Reachable(s) && FenceOk(s, IssuePut)
    ensures forall a <- s.db.attempts ::
              Marker(a, s.db.attempts[a].sequence, s.db.attempts[a].op) in s.world.markers
    ensures forall m <- s.world.markers :: m.attempt in s.db.attempts ==>
              s.db.attempts[m.attempt].sequence == m.sequence && s.db.attempts[m.attempt].op == m.op
    ensures forall m <- s.world.markers :: m.attempt !in s.db.attempts ==> m.attempt !in s.world.issued
  {
    ReachableFence(s);
    IssueRemembersAll(s);
    forall a <- s.db.attempts ensures OnServer(s, a) {}
    forall m <- s.world.markers | m.attempt in s.db.attempts ensures SameAttempt(s.db.attempts[m.attempt], m) {
      assert Known(s.world, m);
    }
  }

  // ------------------------------------------------------------------ markers that come late

  predicate Lands(log: seq<Action>, m: Marker) {
    exists i | 0 <= i < |log| :: log[i] == Server(MarkerLands(m))
  }

  // Markers come to the server only by landing.
  lemma {:induction false} MarkersByLanding(s: Sys, log: seq<Action>, m: Marker)
    requires Legal(s, log)
    ensures m in Exec(s, log).world.markers <==> m in s.world.markers || Lands(log, m)
    decreases |log|
  {
    if log != [] {
      var a := log[0];
      MarkersByLanding(Apply(s, a), log[1..], m);
      assert m in Apply(s, a).world.markers <==> m in s.world.markers || a == Server(MarkerLands(m));
      if i :| 0 <= i < |log| && log[i] == Server(MarkerLands(m)) && i > 0 {
        assert log[1..][i - 1] == Server(MarkerLands(m));
      }
      if i :| 0 <= i < |log[1..]| && log[1..][i] == Server(MarkerLands(m)) {
        assert log[i + 1] == Server(MarkerLands(m));
      }
    }
  }

  lemma {:induction false} AttemptsStay(s: Sys, log: seq<Action>)
    requires Legal(s, log) && NoRestore(log)
    ensures s.db.attempts.Keys <= Exec(s, log).db.attempts.Keys
    decreases |log|
  {
    if log != [] {
      AttemptsGrow(s, log[0]);
      AttemptsStay(Apply(s, log[0]), log[1..]);
    }
  }

  // After the check every marker is that of a local attempt on to the PUT if and only if no
  // marker lands meanwhile but those of attempts the database then knows.
  lemma StillMatchedIff(s: Sys, log: seq<Action>)
    requires Reachable(s) && FenceOk(s, VerifyFence) && Legal(Apply(s, Fence(VerifyFence)), log) && NoRestore(log)
    ensures var n := Exec(Apply(s, Fence(VerifyFence)), log);
      (forall m <- n.world.markers :: m.attempt in n.db.attempts)
      <==> forall m | Lands(log, m) :: m.attempt in n.db.attempts
  {
    var checked := Apply(s, Fence(VerifyFence));
    var n := Exec(checked, log);
    AttemptsStay(checked, log);
    forall m ensures m in n.world.markers <==> m in checked.world.markers || Lands(log, m) {
      MarkersByLanding(checked, log, m);
    }
  }
}

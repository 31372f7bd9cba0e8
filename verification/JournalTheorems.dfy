/**
 What holds in every run of the journal: over all interleavings of submits, cancels,
 processing, crashes, external writers, late-committing PUTs and database restores.
 */
module JournalTheorems {
  import opened PolicyJournal
  import opened JournalInvariants

  predicate NoRestore(log: seq<Action>) {
    forall i | 0 <= i < |log| :: !log[i].Restore?
  }

  // ------------------------------------------------------------------ the policy writes

  // In every run, restores included: a room never has two policy PUTs outstanding, and
  // the PUTs committed are of distinct operations, those of a room in sequence order.
  lemma WritesAreOrdered(s: Sys)
    requires Reachable(s)
    ensures forall p, q | p in s.world.flying && q in s.world.flying && p != q :: p.room != q.room
    ensures forall i: nat, j: nat | i < j < |s.world.committed| ::
              var p, q := s.world.committed[i], s.world.committed[j];
              p.op != q.op && (p.room == q.room ==> p.sequence < q.sequence)
    ensures forall p, q | p in s.world.committed && q in s.world.flying ::
              p.op != q.op && (p.room == q.room ==> p.sequence < q.sequence)
  {
    ReachableInv(s);
    assert forall p | p in s.world.committed || p in s.world.flying :: Alive(s.world, p);
  }

  // The database knows of every policy PUT ever issued.
  ghost predicate RemembersIssued(s: Sys) {
    forall a <- s.world.issued :: a in s.db.attempts
  }

  predicate Issues(a: Action) {
    a.Fence? && a.f.IssuePut?
  }

  lemma FenceAttempts(s: Sys, f: FenceAction)
    requires FenceOk(s, f)
    ensures s.db.attempts.Keys <= FenceDb(s, f).attempts.Keys
    ensures !f.OpenAttempt? ==> FenceDb(s, f).attempts.Keys == s.db.attempts.Keys
  {}

  lemma AttemptsGrow(s: Sys, a: Action)
    requires Enabled(s, a) && !a.Restore?
    ensures s.db.attempts.Keys <= Apply(s, a).db.attempts.Keys
    ensures !(a.Fence? && a.f.OpenAttempt?) ==> Apply(s, a).db.attempts.Keys == s.db.attempts.Keys
  {
    if a.Journal? {
      JournalLeavesOthers(s, a.j);
      hide JournalOk, JournalDb;
    } else if a.Fence? {
      FenceAttempts(s, a.f);
      hide FenceOk, FenceDb;
    }
  }

  lemma IssuedGrow(s: Sys, a: Action)
    requires Enabled(s, a)
    ensures Apply(s, a).world.issued == s.world.issued + (if Issues(a) then {s.pc.attempt} else {})
  {}

  lemma RememberingStep(s: Sys, a: Action)
    requires WriterInv(s) && Enabled(s, a) && !a.Restore? && RemembersIssued(s)
    ensures RemembersIssued(Apply(s, a))
  {
    AttemptsGrow(s, a);
    IssuedGrow(s, a);
  }

  lemma {:induction false} UnrestoredRemembers(s: Sys, log: seq<Action>)
    requires Inv(s) && Legal(s, log) && NoRestore(log) && RemembersIssued(s)
    ensures RemembersIssued(Exec(s, log))
    decreases |log|
  {
    if log != [] {
      RememberingStep(s, log[0]);
      NextInv(s, log[0]);
      UnrestoredRemembers(Apply(s, log[0]), log[1..]);
    }
  }

  // While the database knows of all issued PUTs, as it does until it is restored, an
  // outstanding PUT belongs to a prepared operation: a terminal one has no write left.
  lemma TerminalMeansSettled(s: Sys, k: nat)
    requires Reachable(s) && RemembersIssued(s) && k < |s.db.ops| && Terminal(s.db.ops[k].state)
    ensures forall p | p in s.world.flying :: p.op != s.db.ops[k].request.id
  {
    ReachableInv(s);
    forall p | p in s.world.flying
      ensures p.op != s.db.ops[k].request.id
    {
      assert Alive(s.world, p);
    }
  }

  // ------------------------------------------------------------------ the restore fence

  // A policy PUT starts only while every PUT ever issued is among the local attempts.
  lemma IssueRemembersAll(s: Sys)
    requires Reachable(s) && FenceOk(s, IssuePut)
    ensures RemembersIssued(s)
  {
    ReachableInv(s);
  }

  lemma ForgettingStep(s: Sys, a: Action)
    requires WriterInv(s) && ServerInv(s.world) && Enabled(s, a) && !a.Restore? && !RemembersIssued(s)
    ensures !RemembersIssued(Apply(s, a)) && Apply(s, a).world.issued == s.world.issued
  {
    AttemptsGrow(s, a);
    IssuedGrow(s, a);
    assert !Issues(a);
    var lost :| lost in s.world.issued && lost !in s.db.attempts;
    assert lost in s.world.used;
    assert lost !in Apply(s, a).db.attempts.Keys;
  }

  lemma {:induction false} ForgettingRun(s: Sys, more: seq<Action>)
    requires Inv(s) && Legal(s, more) && NoRestore(more) && !RemembersIssued(s)
    ensures !RemembersIssued(Exec(s, more)) && Exec(s, more).world.issued == s.world.issued
    decreases |more|
  {
    if more != [] {
      ForgettingStep(s, more[0]);
      NextInv(s, more[0]);
      ForgettingRun(Apply(s, more[0]), more[1..]);
    }
  }

  // Restoring a database that forgets an issued PUT ends the writing: whatever happens
  // next, short of yet another restore, no further policy PUT is issued.
  lemma RestoreStopsWrites(s: Sys, earlier: Db, more: seq<Action>)
    requires Reachable(s) && earlier in s.saved
    requires exists a :: a in s.world.issued && a !in earlier.attempts
    requires Legal(Apply(s, Restore(earlier)), more) && NoRestore(more)
    ensures Exec(Apply(s, Restore(earlier)), more).world.issued == s.world.issued
  {
    ReachableInv(s);
    NextInv(s, Restore(earlier));
    ForgettingRun(Apply(s, Restore(earlier)), more);
  }

  // ------------------------------------------------------------------ revisions

  // Applied operations of a room have strictly increasing resulting revisions, in
  // sequence order, none above the room's.
  lemma AppliedRevisions(s: Sys, j: nat, k: nat)
    requires Reachable(s) && j < k < |s.db.ops|
    requires s.db.ops[j].state.Applied? && s.db.ops[k].state.Applied?
    requires s.db.ops[j].request.room == s.db.ops[k].request.room
    ensures var x, y := s.db.ops[j].resulting, s.db.ops[k].resulting;
            && x.Some? && y.Some? && x.value < y.value
            && s.db.ops[k].request.room in s.db.rooms
            && y.value <= s.db.rooms[s.db.ops[k].request.room].revision
  {
    ReachableInv(s);
    assert SameRoom(s.db, j, k);
  }

  // Of all requests naming the same room and expected revision at most one is applied.
  lemma OneAppliedPerRevision(s: Sys, j: nat, k: nat)
    requires Reachable(s) && j < |s.db.ops| && k < |s.db.ops|
    requires s.db.ops[j].state.Applied? && s.db.ops[k].state.Applied?
    requires s.db.ops[j].request.room == s.db.ops[k].request.room
    requires s.db.ops[j].request.expected == s.db.ops[k].request.expected
    ensures j == k
  {
    ReachableInv(s);
    assert SameRoom(s.db, j, k) && SameRoom(s.db, k, j);
  }

  lemma RevisionStep(s: Sys, j: JournalAction, room: RoomId)
    requires JournalOk(s, j) && room in s.db.rooms
    ensures room in JournalDb(s, j).rooms && s.db.rooms[room].revision <= JournalDb(s, j).rooms[room].revision
  {
    hide ObserveDb;
    if j.Observe? {
      ObserveShape(s.db, s.pc.room, s.pc.content);
    }
  }

  lemma FenceLeavesRooms(s: Sys, f: FenceAction)
    requires FenceOk(s, f)
    ensures FenceDb(s, f).rooms == s.db.rooms
  {}

  // Short of a restore, no step lowers a room's revision.
  lemma RevisionsOnlyGrow(s: Sys, a: Action, room: RoomId)
    requires Enabled(s, a) && !a.Restore? && room in s.db.rooms
    ensures room in Apply(s, a).db.rooms
    ensures s.db.rooms[room].revision <= Apply(s, a).db.rooms[room].revision
  {
    match a
    case Journal(j) => RevisionStep(s, j, room);
    case Fence(f) => FenceLeavesRooms(s, f);
    case _ =>
  }

  // The operation goes on as requested, and not at all once it has ended.
  predicate GoesOn(before: Op, after: Op) {
    after == before || (!Terminal(before.state) && after.request == before.request)
  }

  lemma ObserveSpares(s: Sys, k: nat)
    requires JournalOk(s, Observe) && k < |s.db.ops|
    ensures k < |JournalDb(s, Observe).ops| && GoesOn(s.db.ops[k], JournalDb(s, Observe).ops[k])
  {
    ObserveShape(s.db, s.pc.room, s.pc.content);
  }

  lemma JournalSpares(s: Sys, j: JournalAction, k: nat)
    requires JobInv(s) && JournalOk(s, j) && k < |s.db.ops|
    ensures k < |JournalDb(s, j).ops| && GoesOn(s.db.ops[k], JournalDb(s, j).ops[k])
  {
    if j.Observe? {
      ObserveSpares(s, k);
    }
  }

  lemma FenceSpares(s: Sys, f: FenceAction, k: nat)
    requires WriterInv(s) && FenceOk(s, f) && k < |s.db.ops|
    ensures k < |FenceDb(s, f).ops| && GoesOn(s.db.ops[k], FenceDb(s, f).ops[k])
  {}

  // Short of a restore, no action changes what was requested, nor an operation that ended.
  lemma FinishedStays(s: Sys, a: Action, k: nat)
    requires JobInv(s) && WriterInv(s) && Enabled(s, a) && !a.Restore? && k < |s.db.ops|
    ensures k < |Apply(s, a).db.ops| && GoesOn(s.db.ops[k], Apply(s, a).db.ops[k])
  {
    match a
    case Journal(j) => JournalSpares(s, j, k);
    case Fence(f) => FenceSpares(s, f, k);
    case _ =>
  }

  ghost predicate AppliedForReal(d: Db, w: World) {
    forall k: nat | k < |d.ops| && d.ops[k].state.Applied? ::
      d.ops[k].intended.Some? && EverCommitted(w, d.ops[k].intended.value)
  }

  // Only an observation of its own marker makes an operation applied.
  lemma ObserveApplies(d: Db, w: World, room: RoomId, content: Content)
    requires Aims(d) && ObserveDb(d, room, content).Some? && AppliedForReal(d, w)
    requires content.Marked? ==> EverCommitted(w, content)
    ensures AppliedForReal(ObserveDb(d, room, content).value, w)
  {
    ObserveShape(d, room, content);
  }

  lemma JournalApplies(s: Sys, j: JournalAction)
    requires Aims(s.db) && JobInv(s) && JournalOk(s, j) && AppliedForReal(s.db, s.world)
    ensures AppliedForReal(JournalDb(s, j), s.world)
  {
    if j.Observe? {
      ObserveApplies(s.db, s.world, s.pc.room, s.pc.content);
    }
  }

  lemma FenceApplies(s: Sys, f: FenceAction)
    requires FenceOk(s, f) && AppliedForReal(s.db, s.world)
    ensures AppliedForReal(FenceDb(s, f), s.world)
  {}

  lemma RealStays(d: Db, w: World, n: World)
    requires AppliedForReal(d, w) && w.committed <= n.committed
    ensures AppliedForReal(d, n)
  {
    forall c | EverCommitted(w, c)
      ensures EverCommitted(n, c)
    {
      var i :| 0 <= i < |w.committed| && w.committed[i].content == c;
      assert n.committed[i].content == c;
    }
  }

  lemma AppliedStep(s: Sys, a: Action, d: Db)
    requires Inv(s) && Enabled(s, a) && (forall x <- s.saved :: AppliedForReal(x, s.world))
    requires d in Apply(s, a).saved
    ensures AppliedForReal(d, Apply(s, a).world)
  {
    if d !in s.saved {
      if a.Journal? {
        JournalApplies(s, a.j);
      } else if a.Fence? {
        FenceApplies(s, a.f);
      }
    }
    RealStays(d, s.world, Apply(s, a).world);
  }

  lemma {:induction false} AppliedRun(s: Sys, log: seq<Action>)
    requires Inv(s) && Legal(s, log)
    requires forall d <- s.saved :: AppliedForReal(d, s.world)
    ensures forall d <- Exec(s, log).saved :: AppliedForReal(d, Exec(s, log).world)
    decreases |log|
  {
    if log != [] {
      forall d <- Apply(s, log[0]).saved
        ensures AppliedForReal(d, Apply(s, log[0]).world)
      {
        AppliedStep(s, log[0], d);
      }
      NextInv(s, log[0]);
      AppliedRun(Apply(s, log[0]), log[1..]);
    }
  }

  // An operation is shown as applied only if its PUT really committed on the server.
  lemma AppliedMeansCommitted(s: Sys, k: nat)
    requires Reachable(s) && k < |s.db.ops| && s.db.ops[k].state.Applied?
    ensures s.db.ops[k].intended.Some? && EverCommitted(s.world, s.db.ops[k].intended.value)
  {
    var log :| Legal(INITIAL, log) && Exec(INITIAL, log) == s;
    InitialInv();
    AppliedRun(INITIAL, log);
    ReachableInv(s);
  }
}

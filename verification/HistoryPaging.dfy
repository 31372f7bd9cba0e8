/**
 Walking a room's history backwards, page by page. Each page and the cursor behind it are
 committed together; what was found waits in a table of its own until the walk is over, and
 is then queued in one go.
 */
module HistoryPaging {
  import opened Wrappers

  type EventId = string
  type RoomId = string
  type Token = string

  datatype Kind = RoomMessage | Redaction | Proposal | Other

  datatype Event = Event(id: Option<EventId>, kind: Kind, ts: int)

  datatype Direction = Up | Down

  datatype Status = Discover | Queued | Incomplete | Revoked

  datatype Job = Job(room: RoomId, master: RoomId, direction: Direction, boundary: string, cursor: Option<Token>,
                     anchor: Option<EventId>, status: Status, count: nat)

  datatype Ref = Ref(ordinal: int, ts: int)

  datatype Entry = Entry(room: RoomId, ts: int, priority: int, ordinal: int)

  datatype Key = Key(master: RoomId, id: EventId)

  // What the server answers: a page, no such cursor, or nothing usable.
  datatype Reply = Page(chunk: seq<Event>, end: Option<Token>) | BadRequest | Unavailable

  const HISTORY_PRIORITY := 10

  predicate Expected(e: Event, direction: Direction) {
    e.id.Some? && (if direction.Up? then e.kind.RoomMessage? || e.kind.Redaction? else e.kind.Proposal?)
  }

  // ------------------------------------------------------------------ the walk

  // What a walk takes of a stretch of the timeline, newest first, and whether it ends there.
  datatype Walk = Walk(taken: seq<Event>, ended: bool)

  predicate IsAnchor(e: Event, anchor: Option<EventId>) {
    e.id.Some? && e.id == anchor
  }

  function TakeOne(w: Walk, e: Event, direction: Direction, anchor: Option<EventId>, cap: nat): Walk {
    if w.ended then w
    else if IsAnchor(e, anchor) then Walk(w.taken, true)
    else if !Expected(e, direction) then w
    else Walk(w.taken + [e], cap > 0 && |w.taken| + 1 >= cap)
  }

  function WalkOver(w: Walk, es: seq<Event>, direction: Direction, anchor: Option<EventId>, cap: nat): Walk {
    if es == [] then w
    else TakeOne(WalkOver(w, es[..|es| - 1], direction, anchor, cap), es[|es| - 1], direction, anchor, cap)
  }

  // A timeline in pages is walked as it is in one piece.
  lemma {:induction false} WalkInPages(w: Walk, a: seq<Event>, b: seq<Event>,
                                           direction: Direction, anchor: Option<EventId>, cap: nat)
    ensures WalkOver(w, a + b, direction, anchor, cap)
            == WalkOver(WalkOver(w, a, direction, anchor, cap), b, direction, anchor, cap)
  {
    if b == [] {
      assert a + b == a;
    } else {
      WalkInPages(w, a, b[..|b| - 1], direction, anchor, cap);
      assert (a + b)[..|a + b| - 1] == a + b[..|b| - 1];
    }
  }

  lemma {:induction false} WalkEnded(w: Walk, es: seq<Event>, direction: Direction, anchor: Option<EventId>, cap: nat)
    requires w.ended
    ensures WalkOver(w, es, direction, anchor, cap) == w
  {
    if es != [] {
      WalkEnded(w, es[..|es| - 1], direction, anchor, cap);
    }
  }

  const START := Walk([], false)

  function Wanted(timeline: seq<Event>, direction: Direction, anchor: Option<EventId>, cap: nat): seq<Event> {
    WalkOver(START, timeline, direction, anchor, cap).taken
  }

  function AllExpected(es: seq<Event>, direction: Direction): seq<Event> {
    if es == [] then []
    else AllExpected(es[..|es| - 1], direction) + (if Expected(es[|es| - 1], direction) then [es[|es| - 1]] else [])
  }

  // A walk takes everything expected up to where it ends: the first anchor, or the event
  // that makes up the cap, or the beginning of the room.
  lemma {:induction false} WalkReaches(timeline: seq<Event>, direction: Direction, anchor: Option<EventId>, cap: nat)
    returns (k: nat)
    ensures k <= |timeline|
    ensures Wanted(timeline, direction, anchor, cap) == AllExpected(timeline[..k], direction)
    ensures forall i | 0 <= i < k :: timeline[i].id.None? || timeline[i].id != anchor
    ensures if !WalkOver(START, timeline, direction, anchor, cap).ended then k == |timeline|
            else (k < |timeline| && anchor.Some? && timeline[k].id == anchor)
                 || (cap > 0 && |Wanted(timeline, direction, anchor, cap)| == cap)
    ensures cap > 0 ==> |Wanted(timeline, direction, anchor, cap)| <= cap
    ensures cap > 0 && !WalkOver(START, timeline, direction, anchor, cap).ended ==>
              |Wanted(timeline, direction, anchor, cap)| < cap
  {
    k := 0;
    if timeline != [] {
      var n := |timeline| - 1;
      var front := timeline[..n];
      k := WalkReaches(front, direction, anchor, cap);
      assert front[..k] == timeline[..k];
      if !WalkOver(START, front, direction, anchor, cap).ended && !IsAnchor(timeline[n], anchor) {
        k := |timeline|;
        assert timeline[..k] == timeline;
      }
    }
  }

  // What a walk takes, by kind: upwards the messages and redactions, downwards the proposals,
  // all there are with an id up to where it ends.
  lemma TakenKinds(timeline: seq<Event>, direction: Direction, anchor: Option<EventId>, cap: nat) returns (k: nat)
    ensures k <= |timeline|
    ensures direction.Up? ==> forall e :: e in Wanted(timeline, direction, anchor, cap) <==>
              e in timeline[..k] && e.id.Some? && (e.kind == RoomMessage || e.kind == Redaction)
    ensures direction.Down? ==> forall e :: e in Wanted(timeline, direction, anchor, cap) <==>
              e in timeline[..k] && e.id.Some? && e.kind == Proposal
    ensures WalkOver(START, timeline, direction, anchor, cap).ended || k == |timeline|
  {
    k := WalkReaches(timeline, direction, anchor, cap);
    ExpectedHolds(timeline[..k], direction);
  }

  lemma {:induction false} ExpectedHolds(es: seq<Event>, direction: Direction)
    ensures forall e :: e in AllExpected(es, direction) <==> e in es && Expected(e, direction)
  {
    if es != [] {
      var front, last := es[..|es| - 1], es[|es| - 1];
      assert es == front + [last];
      ExpectedHolds(front, direction);
    }
  }

  // ------------------------------------------------------------------ the refs

  function AddRef(refs: map<EventId, Ref>, e: Event, count: int): map<EventId, Ref>
    requires e.id.Some?
  {
    if e.id.value in refs then refs else refs[e.id.value := Ref(-count, e.ts)]
  }

  function RefsOf(taken: seq<Event>): map<EventId, Ref> {
    if taken == [] || taken[|taken| - 1].id.None? then map[]
    else AddRef(RefsOf(taken[..|taken| - 1]), taken[|taken| - 1], |taken|)
  }

  ghost predicate DistinctIds(es: seq<Event>) {
    forall i, j | 0 <= i < j < |es| && es[i].id.Some? :: es[i].id != es[j].id
  }

  // The i-th event found, newest first, has ordinal -(i + 1): from the oldest to the newest
  // the ordinals increase, and there is nothing else among the refs.
  lemma {:induction false} RefOrdinals(taken: seq<Event>)
    requires DistinctIds(taken) && forall e | e in taken :: e.id.Some?
    ensures forall i | 0 <= i < |taken| ::
              taken[i].id.value in RefsOf(taken) && RefsOf(taken)[taken[i].id.value] == Ref(-(i + 1), taken[i].ts)
    ensures forall id | id in RefsOf(taken) :: exists i :: 0 <= i < |taken| && taken[i].id == Some(id)
  {
    if taken != [] {
      var front, last := taken[..|taken| - 1], taken[|taken| - 1];
      assert taken == front + [last];
      RefOrdinals(front);
      assert last.id.value !in RefsOf(front);
    }
  }

  lemma {:induction false} WantedAreExpected(timeline: seq<Event>, direction: Direction, anchor: Option<EventId>, cap: nat)
    ensures forall e | e in Wanted(timeline, direction, anchor, cap) :: Expected(e, direction) && e in timeline
    ensures DistinctIds(timeline) ==> DistinctIds(Wanted(timeline, direction, anchor, cap))
  {
    if timeline != [] {
      var front, last := timeline[..|timeline| - 1], timeline[|timeline| - 1];
      assert timeline == front + [last];
      WantedAreExpected(front, direction, anchor, cap);
      var w := Wanted(front, direction, anchor, cap);
      if DistinctIds(timeline) {
        assert DistinctIds(front);
        forall i | 0 <= i < |w| ensures w[i].id != last.id {
          assert w[i] in front;
        }
      }
    }
  }

  // ------------------------------------------------------------------ the tables

  // Every ref becomes a pending event, unless that event is pending already.
  function QueueAll(pending: map<Key, Entry>, job: Job, refs: map<EventId, Ref>): map<Key, Entry> {
    (map k: Key | k in (set id | id in refs :: Key(job.master, id)) ::
       Entry(job.room, refs[k.id].ts, HISTORY_PRIORITY, refs[k.id].ordinal)) + pending
  }

  function ProposeAll(proposals: map<Key, int>, job: Job, refs: map<EventId, Ref>): map<Key, int> {
    (map k: Key | k in (set id | id in refs :: Key(job.master, id)) :: refs[k.id].ts) + proposals
  }

  // A finished walk has put each event it wanted in the queue, once, in the timeline's order;
  // whatever was pending before stays as it was, and nothing else is added.
  lemma QueuedOnceInOrder(pending: map<Key, Entry>, job: Job, timeline: seq<Event>, cap: nat)
    requires DistinctIds(timeline)
    ensures var wanted := Wanted(timeline, job.direction, job.anchor, cap);
      var after := QueueAll(pending, job, RefsOf(wanted));
      && (forall i | 0 <= i < |wanted| :: wanted[i].id.Some? && Key(job.master, wanted[i].id.value) in after)
      && (forall i | 0 <= i < |wanted| && Key(job.master, wanted[i].id.value) !in pending ::
            after[Key(job.master, wanted[i].id.value)] == Entry(job.room, wanted[i].ts, HISTORY_PRIORITY, -(i + 1)))
      && (forall k | k in pending :: k in after && after[k] == pending[k])
      && (forall k | k in after && k !in pending ::
            k.master == job.master && exists i :: 0 <= i < |wanted| && wanted[i].id == Some(k.id))
  {
    var wanted := Wanted(timeline, job.direction, job.anchor, cap);
    WantedAreExpected(timeline, job.direction, job.anchor, cap);
    RefOrdinals(wanted);
  }

  // What a finished upward walk has put in the queue.
  ghost predicate AllQueued(before: map<Key, Entry>, after: map<Key, Entry>, job: Job, wanted: seq<Event>) {
    && (forall i | 0 <= i < |wanted| ::
          && wanted[i].id.Some? && Key(job.master, wanted[i].id.value) in after
          && (Key(job.master, wanted[i].id.value) !in before ==>
                after[Key(job.master, wanted[i].id.value)] == Entry(job.room, wanted[i].ts, 10, -(i + 1))))
    && (forall k | k in before :: k in after && after[k] == before[k])
    && (forall k | k in after && k !in before ::
          k.master == job.master && exists i :: 0 <= i < |wanted| && wanted[i].id == Some(k.id))
  }

  // What a finished downward walk has proposed.
  ghost predicate AllProposed(before: map<Key, int>, after: map<Key, int>, job: Job, wanted: seq<Event>) {
    && (forall i | 0 <= i < |wanted| ::
          && wanted[i].id.Some? && Key(job.master, wanted[i].id.value) in after
          && (Key(job.master, wanted[i].id.value) !in before ==>
                after[Key(job.master, wanted[i].id.value)] == wanted[i].ts))
    && (forall k | k in before :: k in after && after[k] == before[k])
    && (forall k | k in after && k !in before ::
          k.master == job.master && exists i :: 0 <= i < |wanted| && wanted[i].id == Some(k.id))
  }

  lemma QueuedIs(pending: map<Key, Entry>, job: Job, t: seq<Event>, backfill: nat)
    requires DistinctIds(t) && job.direction.Up?
    ensures AllQueued(pending, QueueAll(pending, job, RefsOf(Wanted(t, job.direction, job.anchor,
                                                                     CapFor(job.direction, backfill)))),
                      job, Wanted(t, Up, job.anchor, backfill))
  {
    QueuedOnceInOrder(pending, job, t, CapFor(job.direction, backfill));
    hide RefsOf, Wanted, QueueAll;
  }

  lemma ProposedIs(proposals: map<Key, int>, job: Job, t: seq<Event>, backfill: nat)
    requires DistinctIds(t) && job.direction.Down?
    ensures AllProposed(proposals, ProposeAll(proposals, job, RefsOf(Wanted(t, job.direction, job.anchor,
                                                                             CapFor(job.direction, backfill)))),
                        job, Wanted(t, Down, job.anchor, 0))
  {
    WantedAreExpected(t, job.direction, job.anchor, CapFor(job.direction, backfill));
    RefOrdinals(Wanted(t, job.direction, job.anchor, CapFor(job.direction, backfill)));
    hide RefsOf, Wanted;
  }

  // An upward walk without a cap that was not ended early took every message and redaction
  // down to the anchor.
  lemma UncappedReachesAnchor(timeline: seq<Event>, anchor: Option<EventId>, i: nat)
    requires i < |timeline| && timeline[i].id.Some?
    requires timeline[i].kind == RoomMessage || timeline[i].kind == Redaction
    requires anchor.Some? ==> forall j | 0 <= j <= i :: timeline[j].id != anchor
    ensures timeline[i] in Wanted(timeline, Up, anchor, 0)
  {
    var k := WalkReaches(timeline, Up, anchor, 0);
    AllExpectedHas(timeline[..k], Up, i);
  }

  lemma {:induction false} AllExpectedHas(es: seq<Event>, direction: Direction, i: nat)
    requires i < |es| && Expected(es[i], direction)
    ensures es[i] in AllExpected(es, direction)
    decreases |es|
  {
    if i < |es| - 1 {
      AllExpectedHas(es[..|es| - 1], direction, i);
    }
  }

  // ------------------------------------------------------------------ a job under way

  function CapFor(direction: Direction, backfill: nat): nat {
    if direction.Up? then backfill else 0
  }

  ghost function WalkTo(job: Job, t: seq<Event>, p: nat, backfill: nat): Walk
    requires p <= |t|
  {
    WalkOver(START, t[..p], job.direction, job.anchor, CapFor(job.direction, backfill))
  }

  // Where the server resumes: the stored cursor is all that says so.
  ghost predicate Placed(job: Job, places: map<Token, nat>) {
    job.cursor.Some? ==> job.cursor.value in places
  }

  ghost function PlaceOf(job: Job, places: map<Token, nat>): nat
    requires Placed(job, places)
  {
    if job.cursor.None? then 0 else places[job.cursor.value]
  }

  // The job has found what a walk over the timeline finds up to its place.
  ghost predicate JobOk(job: Job, found: map<EventId, Ref>, t: seq<Event>, places: map<Token, nat>, backfill: nat) {
    && Placed(job, places) && PlaceOf(job, places) <= |t|
    && var w := WalkTo(job, t, PlaceOf(job, places), backfill);
       !w.ended && job.count == |w.taken| && found == RefsOf(w.taken)
  }

  // A page continues the timeline at the place of the cursor; no token at its end means the
  // beginning of the room; a token stands for one place.
  ghost predicate Honest(job: Job, t: seq<Event>, places: map<Token, nat>, reply: Reply) {
    Placed(job, places) && (reply.Page? ==>
      var p := PlaceOf(job, places);
      var q := p + |reply.chunk|;
      && q <= |t| && reply.chunk == t[p..q]
      && (reply.end.None? ==> q == |t|)
      && (reply.end.Some? && reply.end.value in places ==> places[reply.end.value] == q))
  }

  // The walk is over with this page: at the anchor, or at the cap.
  ghost predicate Over(job: Job, t: seq<Event>, places: map<Token, nat>, chunk: seq<Event>, backfill: nat) {
    && Placed(job, places) && PlaceOf(job, places) + |chunk| <= |t|
    && WalkTo(job, t, PlaceOf(job, places) + |chunk|, backfill).ended
  }

  // Of the jobs under way, the one that has found least; the earliest of those.
  predicate IsNext(jobs: seq<Job>, j: nat) {
    && j < |jobs| && jobs[j].status.Discover?
    && forall i: nat | i < |jobs| && jobs[i].status.Discover? ::
         jobs[j].count < jobs[i].count || (jobs[j].count == jobs[i].count && j <= i)
  }

  lemma StaysEnded(t: seq<Event>, m: nat, n: nat, job: Job, backfill: nat)
    requires m <= n <= |t| && WalkTo(job, t, m, backfill).ended
    ensures WalkTo(job, t, n, backfill) == WalkTo(job, t, m, backfill)
  {
    var cap := CapFor(job.direction, backfill);
    assert t[..n] == t[..m] + t[m..n];
    WalkInPages(START, t[..m], t[m..n], job.direction, job.anchor, cap);
    WalkEnded(WalkTo(job, t, m, backfill), t[m..n], job.direction, job.anchor, cap);
  }

  lemma WalkStep(job: Job, t: seq<Event>, p: nat, backfill: nat)
    requires p < |t|
    ensures WalkTo(job, t, p + 1, backfill)
            == TakeOne(WalkTo(job, t, p, backfill), t[p], job.direction, job.anchor, CapFor(job.direction, backfill))
  {
    assert t[..p + 1][..p] == t[..p];
  }

  lemma RefsGrow(taken: seq<Event>, e: Event)
    requires e.id.Some?
    ensures RefsOf(taken + [e]) == AddRef(RefsOf(taken), e, |taken| + 1)
  {
    assert (taken + [e])[..|taken|] == taken;
  }

  function RefsIn(refs: map<nat, map<EventId, Ref>>, j: nat): map<EventId, Ref> {
    if j in refs then refs[j] else map[]
  }

  class DurableSync {
    const backfill: nat
    var jobs: seq<Job>
    var refs: map<nat, map<EventId, Ref>>
    var pending: map<Key, Entry>
    var proposals: map<Key, int>
    var delivered: set<Key>
    // What each job's room holds from where the job starts, newest first, and the place in
    // it that each token the server gave for it stands for.
    ghost var timelines: seq<seq<Event>>
    ghost var places: seq<map<Token, nat>>

    ghost predicate Valid()
      reads this
    {
      && |jobs| == |timelines| == |places|
      && (forall j: nat | j < |jobs| && jobs[j].status.Discover? ::
            JobOk(jobs[j], RefsIn(refs, j), timelines[j], places[j], backfill))
      && (forall j | j in refs :: j < |jobs|)
    }

    constructor (backfill: nat)
      ensures Valid() && jobs == [] && pending == map[] && this.backfill == backfill
    {
      this.backfill := backfill;
      jobs, refs, pending, proposals, delivered := [], map[], map[], map[], {};
      timelines, places := [], [];
    }

    // One job for a room's boundary and direction; asking again changes nothing.
    method ScheduleHistory(room: RoomId, master: RoomId, cursor: Option<Token>, anchor: Option<EventId>,
                           direction: Direction, boundary: string, ghost timeline: seq<Event>)
      requires Valid()
      modifies this`jobs, this`timelines, this`places
      ensures Valid()
      ensures var known := exists j | j in old(jobs) ::
                j.master == master && j.boundary == boundary && j.direction == direction;
        var job := Job(room, master, direction, boundary, cursor, anchor, Discover, 0);
        && jobs == (if known then old(jobs) else old(jobs) + [job])
        && timelines == (if known then old(timelines) else old(timelines) + [timeline])
    {
      if exists j | j in jobs :: j.master == master && j.boundary == boundary && j.direction == direction {
        return;
      }
      assert timeline[..0] == [];
      jobs := jobs + [Job(room, master, direction, boundary, cursor, anchor, Discover, 0)];
      timelines := timelines + [timeline];
      places := places + [if cursor.Some? then map[cursor.value := 0] else map[]];
    }

    method SelectJob() returns (best: Option<nat>)
      ensures best.None? ==> forall j: nat | j < |jobs| :: jobs[j].status != Discover
      ensures best.Some? ==>
                && best.value < |jobs| && jobs[best.value].status == Discover
                && forall j: nat | j < |jobs| && jobs[j].status == Discover ::
                     && jobs[best.value].count <= jobs[j].count
                     && (j < best.value ==> jobs[best.value].count < jobs[j].count)
      ensures best.None? ==> forall j: nat :: !IsNext(jobs, j)
      ensures best.Some? ==> IsNext(jobs, best.value)
    {
      best := None;
      for i := 0 to |jobs|
        invariant best.None? ==> forall j: nat | j < i :: !jobs[j].status.Discover?
        invariant best.Some? ==> best.value < i && jobs[best.value].status.Discover?
        invariant best.Some? ==> forall j: nat | j < i && jobs[j].status.Discover? ::
                    jobs[best.value].count < jobs[j].count || (jobs[best.value].count == jobs[j].count && best.value <= j)
      {
        if jobs[i].status.Discover? && (best.None? || jobs[i].count < jobs[best.value].count) {
          best := Some(i);
        }
      }
    }

    // Access is withdrawn: what waits for the room is dropped, and its walks are over.
    method MarkRevoking(room: RoomId)
      requires Valid()
      modifies this`pending, this`jobs
      ensures Valid()
      ensures pending == map k | k in old(pending) && old(pending)[k].room != room :: old(pending)[k]
      ensures |jobs| == |old(jobs)|
      ensures forall j | 0 <= j < |jobs| ::
                jobs[j] == if old(jobs)[j].room == room && old(jobs)[j].direction.Up? then old(jobs)[j].(status := Revoked)
                           else old(jobs)[j]
    {
      pending := map k | k in pending && pending[k].room != room :: pending[k];
      jobs := seq(|jobs|, j requires 0 <= j < |jobs| reads this =>
        if jobs[j].room == room && jobs[j].direction.Up? then jobs[j].(status := Revoked) else jobs[j]);
    }

    // Live events go in at once, unless delivered or pending.
    method EnqueueEvents(room: RoomId, master: RoomId, events: seq<Event>, priority: int)
      requires Valid()
      modifies this`pending
      ensures Valid()
      ensures forall k | k in old(pending) :: k in pending && pending[k] == old(pending)[k]
      ensures forall i | 0 <= i < |events| && Expected(events[i], Up) && Key(master, events[i].id.value) !in delivered ::
                Key(master, events[i].id.value) in pending
      ensures forall k | k in pending && k !in old(pending) :: k !in delivered && exists i ::
                0 <= i < |events| && Expected(events[i], Up) && k == Key(master, events[i].id.value)
                && pending[k] == Entry(room, events[i].ts, priority, i)
    {
      for i := 0 to |events|
        invariant forall k | k in old(pending) :: k in pending && pending[k] == old(pending)[k]
        invariant forall j | 0 <= j < i && Expected(events[j], Up) && Key(master, events[j].id.value) !in delivered ::
                    Key(master, events[j].id.value) in pending
        invariant forall k | k in pending && k !in old(pending) :: k !in delivered && exists j ::
                    0 <= j < i && Expected(events[j], Up) && k == Key(master, events[j].id.value)
                    && pending[k] == Entry(room, events[j].ts, priority, j)
      {
        var e := events[i];
        if Expected(e, Up) {
          var k := Key(master, e.id.value);
          if k !in delivered && k !in pending {
            pending := pending[k := Entry(room, e.ts, priority, i)];
          }
        }
      }
    }

    // What one page adds, event by event, until something ends the walk.
    method ReadPage(job: Job, before: map<EventId, Ref>, chunk: seq<Event>, ghost t: seq<Event>, ghost p: nat)
      returns (count: nat, found: map<EventId, Ref>, ended: bool)
      requires p + |chunk| <= |t| && chunk == t[p..p + |chunk|]
      requires var w := WalkTo(job, t, p, backfill); !w.ended && job.count == |w.taken| && before == RefsOf(w.taken)
      ensures var w := WalkTo(job, t, p + |chunk|, backfill);
        count == |w.taken| && found == RefsOf(w.taken) && ended == w.ended
    {
      hide RefsOf, AddRef, WalkTo;
      count, found, ended := job.count, before, false;
      for i := 0 to |chunk|
        invariant var w := WalkTo(job, t, p + i, backfill); count == |w.taken| && found == RefsOf(w.taken) && !w.ended
      {
        var e := chunk[i];
        WalkStep(job, t, p + i, backfill);
        if IsAnchor(e, job.anchor) {
          StaysEnded(t, p + i + 1, p + |chunk|, job, backfill);
          return count, found, true;
        }
        if Expected(e, job.direction) {
          RefsGrow(WalkTo(job, t, p + i, backfill).taken, e);
          count := count + 1;
          found := AddRef(found, e, count);
          if CapFor(job.direction, backfill) > 0 && count >= CapFor(job.direction, backfill) {
            StaysEnded(t, p + i + 1, p + |chunk|, job, backfill);
            return count, found, true;
          }
        }
      }
    }

    // A page that was answered: the job goes on behind it, or its refs are queued.
    method TurnPage(j: nat, chunk: seq<Event>, end: Option<Token>)
      requires Valid() && j < |jobs| && jobs[j].status.Discover?
      requires Honest(jobs[j], timelines[j], places[j], Page(chunk, end))
      modifies this`jobs, this`refs, this`pending, this`proposals, this`places
      ensures Valid() && |jobs| == |old(jobs)|
      ensures jobs == old(jobs)[j := jobs[j]]
      ensures jobs[j].status == StatusAfter(old(jobs)[j], timelines[j], old(places)[j], Page(chunk, end), backfill)
      ensures jobs[j].status.Discover? ==> jobs[j].cursor == end
      ensures jobs[j].status.Queued? ==> QueuedBy(j, old(jobs)[j], old(pending), old(proposals))
      ensures !jobs[j].status.Queued? ==> pending == old(pending) && proposals == old(proposals)
      ensures var job := old(jobs)[j];
        if Over(job, timelines[j], old(places)[j], chunk, backfill) || end.None? then jobs[j].status == Queued
        else if end == job.cursor then jobs[j].status == Incomplete
        else jobs[j].status == Discover && jobs[j].cursor == end
      ensures jobs[j].status.Queued? && DistinctIds(timelines[j]) ==>
                Delivers(j, old(jobs)[j], old(pending), old(proposals))
      ensures var job, found := old(jobs)[j],
                  WalkTo(old(jobs)[j], timelines[j], PlaceOf(old(jobs)[j], old(places)[j]) + |chunk|, backfill).taken;
        jobs[j] == job.(status := jobs[j].status, count := |found|,
                        cursor := if jobs[j].status.Incomplete? then job.cursor else end)
      // What was found stays with the job until it is handed on.
      ensures refs == if jobs[j].status.Queued? then old(refs) - {j} else old(refs)[j := RefsIn(refs, j)]
      ensures !jobs[j].status.Queued? ==>
                RefsIn(refs, j)
                == RefsOf(WalkTo(old(jobs)[j], timelines[j], PlaceOf(old(jobs)[j], old(places)[j]) + |chunk|, backfill).taken)
    {
      hide WalkTo, QueueAll, ProposeAll, RefsOf, Wanted, AllQueued, AllProposed, DistinctIds;
      var job := jobs[j];
      ghost var t, p := timelines[j], PlaceOf(job, places[j]);
      ghost var q := p + |chunk|;
      var count, found, ended := ReadPage(job, RefsIn(refs, j), chunk, t, p);
      if end.Some? && end == job.cursor && !ended {
        refs := refs[j := found];
        jobs := jobs[j := job.(status := Incomplete, count := count)];
      } else if ended || end.None? {
        Deliver(j, job, found, q);
        jobs := jobs[j := job.(status := Queued, cursor := end, count := count)];
        refs := refs - {j};
      } else {
        GoesOn(job, t, places[j], end.value, count, q, backfill);
        places := places[j := places[j][end.value := q]];
        refs := refs[j := found];
        jobs := jobs[j := job.(cursor := end, count := count)];
      }
    }

    // A walk that is over is handed on.
    method Deliver(j: nat, job: Job, found: map<EventId, Ref>, ghost q: nat)
      requires j < |timelines| && q <= |timelines[j]| && found == RefsOf(WalkTo(job, timelines[j], q, backfill).taken)
      requires WalkTo(job, timelines[j], q, backfill).ended || q == |timelines[j]|
      modifies this`pending, this`proposals
      ensures QueuedBy(j, job, old(pending), old(proposals))
      ensures DistinctIds(timelines[j]) ==> Delivers(j, job, old(pending), old(proposals))
    {
      hide WalkTo, QueueAll, ProposeAll, RefsOf, Wanted, AllQueued, AllProposed, DistinctIds;
      ghost var t := timelines[j];
      WholeWalk(t, q, job, backfill);
      if DistinctIds(t) && job.direction.Up? {
        QueuedIs(pending, job, t, backfill);
      } else if DistinctIds(t) {
        ProposedIs(proposals, job, t, backfill);
      }
      if job.direction.Up? {
        pending := QueueAll(pending, job, found);
      } else {
        proposals := ProposeAll(proposals, job, found);
      }
    }

    // What the whole walk wanted is queued, or proposed, and nothing else has changed there.
    ghost predicate QueuedBy(j: nat, job: Job, before: map<Key, Entry>, proposed: map<Key, int>)
      reads this
      requires j < |timelines|
    {
      var found := RefsOf(Wanted(timelines[j], job.direction, job.anchor, CapFor(job.direction, backfill)));
      && pending == (if job.direction.Up? then QueueAll(before, job, found) else before)
      && proposals == (if job.direction.Up? then proposed else ProposeAll(proposed, job, found))
    }

    // What the whole timeline calls for is queued, upwards, or proposed, downwards.
    ghost predicate Delivers(j: nat, job: Job, before: map<Key, Entry>, proposed: map<Key, int>)
      requires j < |timelines|
      reads this
    {
      if job.direction.Up? then
        && AllQueued(before, pending, job, Wanted(timelines[j], Up, job.anchor, backfill))
        && proposals == proposed
      else
        && AllProposed(proposed, proposals, job, Wanted(timelines[j], Down, job.anchor, 0))
        && pending == before
    }

    // One page of one job. All its writes are one transaction: a process that dies before
    // the end has changed nothing, and asks again with the cursor it has.
    method HistorySlice(shared: set<RoomId>, reply: Reply) returns (selected: Option<nat>)
      requires Valid()
      requires forall j: nat | IsNext(jobs, j) :: Honest(jobs[j], timelines[j], places[j], reply)
      modifies this
      ensures Valid() && |jobs| == |old(jobs)| && timelines == old(timelines) && delivered == old(delivered)
      ensures selected.None? ==> jobs == old(jobs) && pending == old(pending) && proposals == old(proposals)
                                 && forall job | job in old(jobs) :: job.status != Discover
      ensures selected.Some? ==> IsNext(old(jobs), selected.value)
      ensures selected.Some? && !(old(jobs)[selected.value].direction.Up? && old(jobs)[selected.value].room !in shared) ==>
                var j := selected.value;
                && jobs == old(jobs)[j := jobs[j]]
                && jobs[j].status == StatusAfter(old(jobs)[j], timelines[j], old(places)[j], reply, backfill)
                && (jobs[j].status.Queued? ==> QueuedBy(j, old(jobs)[j], old(pending), old(proposals)))
                && (!jobs[j].status.Queued? ==> pending == old(pending) && proposals == old(proposals))
      // Without an answer nothing changes; a token the server does not know ends the walk as
      // incomplete, and so does one that stands still before the walk is over.
      ensures selected.Some? && !(old(jobs)[selected.value].direction.Up? && old(jobs)[selected.value].room !in shared) ==>
                var j, job := selected.value, old(jobs)[selected.value];
                match reply
                case Unavailable => jobs == old(jobs)
                case BadRequest => jobs == old(jobs)[j := job.(status := Incomplete)]
                case Page(chunk, end) =>
                  if Over(job, timelines[j], old(places)[j], chunk, backfill) || end.None? then jobs[j].status == Queued
                  else if end == job.cursor then jobs[j].status == Incomplete
                  else jobs[j].status == Discover && jobs[j].cursor == end
      // A walk that is over has queued, or proposed, all that its whole timeline calls for.
      ensures selected.Some? && jobs[selected.value].status == Queued && DistinctIds(timelines[selected.value]) ==>
                Delivers(selected.value, old(jobs)[selected.value], old(pending), old(proposals))
      ensures selected.Some? && old(jobs)[selected.value].direction.Up? && old(jobs)[selected.value].room !in shared ==>
                var room := old(jobs)[selected.value].room;
                && pending == (map k | k in old(pending) && old(pending)[k].room != room :: old(pending)[k])
                && forall i | 0 <= i < |jobs| ::
                     jobs[i] == if old(jobs)[i].room == room && old(jobs)[i].direction.Up?
                                then old(jobs)[i].(status := Revoked) else old(jobs)[i]
    {
      hide QueuedBy, StatusAfter, Delivers, Over, DistinctIds;
      selected := SelectJob();
      if selected.None? {
        return;
      }
      var j := selected.value;
      if jobs[j].direction.Up? && jobs[j].room !in shared {
        MarkRevoking(jobs[j].room);
        return;
      }
      match reply {
        case Unavailable =>
          NoPageStatus(jobs[j], timelines[j], places[j], reply, backfill);
        case BadRequest =>
          NoPageStatus(jobs[j], timelines[j], places[j], reply, backfill);
          jobs := jobs[j := jobs[j].(status := Incomplete)];
        case Page(chunk, end) =>
          TurnPage(j, chunk, end);
      }
    }
  }

  // A token that stands still ends the walk as incomplete; the anchor, the cap and the
  // beginning of the room end it for good.
  ghost function StatusAfter(job: Job, t: seq<Event>, places: map<Token, nat>, reply: Reply, backfill: nat): Status
    requires Honest(job, t, places, reply)
  {
    match reply
    case Unavailable => Discover
    case BadRequest => Incomplete
    case Page(chunk, end) =>
      var ended := WalkTo(job, t, PlaceOf(job, places) + |chunk|, backfill).ended;
      if end.Some? && end == job.cursor && !ended then Incomplete
      else if ended || end.None? then Queued
      else Discover
  }

  lemma NoPageStatus(job: Job, t: seq<Event>, places: map<Token, nat>, reply: Reply, backfill: nat)
    requires Honest(job, t, places, reply) && !reply.Page?
    ensures StatusAfter(job, t, places, reply, backfill) == if reply.BadRequest? then Incomplete else Discover
  {}

  lemma WholeWalk(t: seq<Event>, q: nat, job: Job, backfill: nat)
    requires q <= |t| && (WalkTo(job, t, q, backfill).ended || q == |t|)
    ensures WalkTo(job, t, q, backfill).taken == Wanted(t, job.direction, job.anchor, CapFor(job.direction, backfill))
  {
    if WalkTo(job, t, q, backfill).ended {
      StaysEnded(t, q, |t|, job, backfill);
    }
    assert t[..|t|] == t;
  }

  // The new cursor says where the walk has come to.
  lemma GoesOn(job: Job, t: seq<Event>, places: map<Token, nat>, end: Token, count: nat, q: nat, backfill: nat)
    requires q <= |t| && !WalkTo(job, t, q, backfill).ended && count == |WalkTo(job, t, q, backfill).taken|
    ensures var found := RefsOf(WalkTo(job, t, q, backfill).taken);
      JobOk(job.(cursor := Some(end), count := count), found, t, places[end := q], backfill)
  {}
}

/**
 The per-room ledger of native messages: windows that overlap are merged into it, its
 events are grouped into messages, and every message is paired with what answers it.
 */
module ConversationTracking {
  import opened Wrappers
  import opened ReplyPairing

  datatype Evidence = NativeComplete | ObservedNative

  datatype Event = Event(nativeId: string, order: string, timestamp: int, incoming: bool, eventId: Option<EventId>)

  // One sent message delivered as several native ones.
  datatype Part = Part(target: EventId, ids: seq<string>)

  // `usable` stands for the readiness and completeness flags its evidence kind demands.
  datatype Snapshot = Snapshot(kind: Evidence, usable: bool, hasMore: bool, events: seq<Event>, parts: seq<Part>)

  datatype Group = Group(target: EventId, incoming: bool, timestamp: int, order: string)

  datatype Message = Message(eventId: EventId, incoming: bool, timestamp: int, order: string,
                             answeredBy: Option<EventId>)

  datatype Projection = Projection(kind: Evidence, events: seq<Event>, parts: seq<Part>,
                                   boundary: Option<EventId>, complete: bool, messages: seq<Message>)

  const LIMIT := 10000
  const MAX_PARTS := 100

  // ------------------------------------------------------------------ the ledger

  predicate IsDigits(s: string) {
    forall c | c in s :: '0' <= c <= '9'
  }

  function Value(digits: string): int {
    if digits == "" then 0
    else 10 * Value(digits[..|digits| - 1]) + (digits[|digits| - 1] as int - '0' as int)
  }

  predicate WellFormed(e: Event) {
    0 < |e.nativeId| <= 512 && 1 <= |e.order| <= 32 && IsDigits(e.order) && e.timestamp > 0
  }

  function Ids(events: seq<Event>): set<string> {
    set e | e in events :: e.nativeId
  }

  predicate Unique(events: seq<Event>) {
    forall i, j | 0 <= i < j < |events| :: events[i].nativeId != events[j].nativeId
  }

  function Window(values: seq<Event>): (r: Result<seq<Event>, string>)
    ensures r.Ok? ==> r.value == values && Unique(values) && forall e | e in values :: WellFormed(e)
  {
    if values == [] then Ok([]) else
      var window :- Window(values[..|values| - 1]);
      var e := values[|values| - 1];
      if !WellFormed(e) then Err("invalid-native-order")
      else if e.nativeId in Ids(window) then Err("duplicate-native-id")
      else assert values == window + [e]; Ok(window + [e])
  }

  function Lookup(events: seq<Event>, id: string): (r: Option<Event>)
    ensures r.None? <==> id !in Ids(events)
    ensures r.Some? ==> r.value in events && r.value.nativeId == id
  {
    if events == [] then None
    else if events[|events| - 1].nativeId == id then Some(events[|events| - 1])
    else Lookup(events[..|events| - 1], id)
  }

  // The least order of a window; 0 when it is empty.
  function Lower(events: seq<Event>): (r: int)
    ensures forall e | e in events :: r <= Value(e.order)
    ensures events != [] ==> exists e | e in events :: r == Value(e.order)
  {
    if events == [] then 0
    else
      var last := Value(events[|events| - 1].order);
      if |events| == 1 then last
      else
        var rest := Lower(events[..|events| - 1]);
        if last < rest then last else rest
  }

  predicate SamePlace(before: Event, now: Event) {
    before.order == now.order && before.timestamp == now.timestamp && before.incoming == now.incoming
  }

  predicate Remapped(before: Event, now: Event) {
    before.eventId.Some? && now.eventId.Some? && now.eventId != before.eventId
  }

  // The same event, perhaps mapped since.
  predicate Continues(before: Event, now: Event) {
    now.nativeId == before.nativeId && SamePlace(before, now)
    && (before.eventId.Some? ==> now.eventId == before.eventId)
  }

  function Refreshed(before: Event, window: seq<Event>): Event {
    match Lookup(window, before.nativeId)
    case None => before
    case Some(now) => now.(eventId := if now.eventId.Some? then now.eventId else before.eventId)
  }

  function RefreshAll(prior: seq<Event>, window: seq<Event>): (r: Result<seq<Event>, string>)
    ensures r.Ok? ==> |r.value| == |prior|
    ensures r.Ok? ==> forall i | 0 <= i < |prior| :: r.value[i] == Refreshed(prior[i], window)
    ensures r.Ok? ==> forall i | 0 <= i < |prior| :: Continues(prior[i], r.value[i])
  {
    if prior == [] then Ok([]) else
      var rest :- RefreshAll(prior[..|prior| - 1], window);
      var before := prior[|prior| - 1];
      match Lookup(window, before.nativeId)
      case None => Ok(rest + [before])
      case Some(now) =>
        if !SamePlace(before, now) then Err("native-order-changed")
        else if Remapped(before, now) then Err("native-event-remapped")
        else Ok(rest + [Refreshed(before, window)])
  }

  function Unseen(window: seq<Event>, prior: seq<Event>): (r: seq<Event>)
    ensures forall e | e in r :: e in window && e.nativeId !in Ids(prior)
    ensures forall e | e in window && e.nativeId !in Ids(prior) :: e in r
  {
    if window == [] then []
    else
      var e := window[|window| - 1];
      Unseen(window[..|window| - 1], prior) + (if e.nativeId in Ids(prior) then [] else [e])
  }

  function Merge(prior: seq<Event>, window: seq<Event>, hasMore: bool): (r: Result<seq<Event>, string>) {
    if prior != [] && Ids(prior) !! Ids(window) then Err("native-window-gap")
    else if exists e | e in prior :: e.nativeId !in Ids(window) && !(hasMore && Value(e.order) < Lower(window))
      then Err("native-history-changed")
    else
      var kept :- RefreshAll(prior, window);
      var events := kept + Unseen(window, prior);
      if |events| > LIMIT then Err("native-ledger-bound") else Ok(events)
  }

  // ------------------------------------------------------------------ parts of one message

  function PartIds(parts: seq<Part>, target: EventId): seq<string> {
    if parts == [] then []
    else if parts[|parts| - 1].target == target then parts[|parts| - 1].ids
    else PartIds(parts[..|parts| - 1], target)
  }

  predicate HasPart(parts: seq<Part>, target: EventId) {
    exists p | p in parts :: p.target == target
  }

  predicate DistinctIds(ids: seq<string>) {
    forall i, j | 0 <= i < j < |ids| :: ids[i] != ids[j]
  }

  predicate PartShape(p: Part) {
    0 < |p.ids| <= MAX_PARTS && "" !in p.ids && DistinctIds(p.ids)
  }

  function AsSet(ids: seq<string>): set<string> {
    set id | id in ids
  }

  function PutPart(parts: seq<Part>, p: Part): seq<Part> {
    if parts == [] then [p]
    else if parts[0].target == p.target then [p] + parts[1..]
    else [parts[0]] + PutPart(parts[1..], p)
  }

  function MergeParts(parts: seq<Part>, incoming: seq<Part>): Result<seq<Part>, string> {
    if incoming == [] then Ok(parts) else
      var before :- MergeParts(parts, incoming[..|incoming| - 1]);
      var p := incoming[|incoming| - 1];
      if !PartShape(p) then Err("native-parts-invalid")
      else if HasPart(before, p.target) && AsSet(PartIds(before, p.target)) != AsSet(p.ids) then
        Err("native-parts-changed")
      else Ok(PutPart(before, p))
  }

  function Claim(aliases: map<string, EventId>, target: EventId, ids: seq<string>)
    : Result<map<string, EventId>, string>
  {
    if ids == [] then Ok(aliases) else
      var before :- Claim(aliases, target, ids[..|ids| - 1]);
      var id := ids[|ids| - 1];
      if id in before then Err("native-part-multiple-messages") else Ok(before[id := target])
  }

  predicate Delivered(events: seq<Event>, id: string) {
    match Lookup(events, id)
    case None => false
    case Some(e) => !e.incoming
  }

  function Aliases(parts: seq<Part>, events: seq<Event>): Result<map<string, EventId>, string> {
    if parts == [] then Ok(map[]) else
      var before :- Aliases(parts[..|parts| - 1], events);
      var p := parts[|parts| - 1];
      if exists id | id in p.ids :: !Delivered(events, id) then Err("native-parts-incomplete")
      else Claim(before, p.target, p.ids)
  }

  // ------------------------------------------------------------------ messages in order

  predicate Ordered(events: seq<Event>) {
    forall i | 0 < i < |events| :: Value(events[i - 1].order) <= Value(events[i].order)
  }

  // Where an event goes among the first n: after every event that is not later.
  function Place(events: seq<Event>, n: nat, e: Event): (k: nat)
    requires n <= |events|
    ensures k <= n && (k > 0 ==> Value(events[k - 1].order) <= Value(e.order))
    ensures k < n ==> Value(events[k].order) > Value(e.order)
  {
    if n == 0 || Value(events[n - 1].order) <= Value(e.order) then n else Place(events, n - 1, e)
  }

  lemma InsertionKeepsAll(events: seq<Event>, k: nat, e: Event)
    requires k <= |events|
    ensures multiset(events[..k] + [e] + events[k..]) == multiset(events) + multiset{e}
  {
    assert events == events[..k] + events[k..];
  }

  function InsertByOrder(events: seq<Event>, e: Event): (r: seq<Event>)
    requires Ordered(events)
    ensures Ordered(r) && multiset(r) == multiset(events) + multiset{e}
  {
    var k := Place(events, |events|, e);
    InsertionKeepsAll(events, k, e);
    events[..k] + [e] + events[k..]
  }

  function SortByOrder(events: seq<Event>): (r: seq<Event>)
    ensures Ordered(r) && multiset(r) == multiset(events)
  {
    if events == [] then []
    else
      assert events == events[..|events| - 1] + [events[|events| - 1]];
      InsertByOrder(SortByOrder(events[..|events| - 1]), events[|events| - 1])
  }

  predicate OrdersDiffer(events: seq<Event>) {
    forall i, j | 0 <= i < j < |events| :: events[i].order != events[j].order
  }

  predicate TimesRise(events: seq<Event>) {
    forall i | 0 < i < |events| :: events[i - 1].timestamp <= events[i].timestamp
  }

  function TargetOf(e: Event, aliases: map<string, EventId>): Option<EventId> {
    if e.nativeId in aliases then Some(aliases[e.nativeId]) else e.eventId
  }

  predicate HasGroup(groups: seq<Group>, target: EventId) {
    exists g | g in groups :: g.target == target
  }

  function AddToGroups(groups: seq<Group>, e: Event, aliases: map<string, EventId>, parts: seq<Part>)
    : (r: Result<seq<Group>, string>)
  {
    var target := TargetOf(e, aliases);
    if target.None? then Err("native-message-not-mapped")
    else if HasGroup(groups, target.value) then
      var last := groups[|groups| - 1];
      if last.target == target.value && !e.incoming && e.nativeId in PartIds(parts, target.value) then
        Ok(groups[|groups| - 1 := last.(timestamp := e.timestamp, order := e.order)])
      else Err("native-message-noncontiguous")
    else Ok(groups + [Group(target.value, e.incoming, e.timestamp, e.order)])
  }

  predicate UniqueTargets(groups: seq<Group>) {
    forall i, j | 0 <= i < j < |groups| :: groups[i].target != groups[j].target
  }

  function Groups(ordered: seq<Event>, aliases: map<string, EventId>, parts: seq<Part>)
    : (r: Result<seq<Group>, string>)
    ensures r.Ok? ==> UniqueTargets(r.value)
  {
    if ordered == [] then Ok([]) else
      var before :- Groups(ordered[..|ordered| - 1], aliases, parts);
      AddToGroups(before, ordered[|ordered| - 1], aliases, parts)
  }

  // The messages of a ledger in source order, the boundary message included.
  function Sequence(events: seq<Event>, parts: seq<Part>): (r: Result<seq<Group>, string>)
    ensures r.Ok? ==> UniqueTargets(r.value)
  {
    var aliases :- Aliases(parts, events);
    var ordered := SortByOrder(events);
    if !OrdersDiffer(ordered) then Err("native-order-tie")
    else if !TimesRise(ordered) then Err("native-time-order-inversion")
    else Groups(ordered, aliases, parts)
  }

  // ------------------------------------------------------------------ the projection

  function NextBoundary(previous: Option<Projection>, hasMore: bool, groups: seq<Group>): Option<EventId> {
    if !hasMore then None
    else if previous.Some? then previous.value.boundary
    else if groups != [] then Some(groups[0].target)
    else None
  }

  function Shown(groups: seq<Group>, boundary: Option<EventId>): seq<Group> {
    if groups == [] then []
    else
      var g := groups[|groups| - 1];
      Shown(groups[..|groups| - 1], boundary) + (if Some(g.target) == boundary then [] else [g])
  }

  function Items(groups: seq<Group>): seq<Item> {
    seq(|groups|, i requires 0 <= i < |groups| => Item(groups[i].target, groups[i].incoming))
  }

  ghost function AnswerOf(s: seq<Item>, i: nat): (r: Option<EventId>)
    requires i < |s|
  {
    if j: nat :| Answers(s, i, j) then Some(s[j].id) else None
  }

  ghost function Messages(groups: seq<Group>): seq<Message> {
    seq(|groups|, i requires 0 <= i < |groups| =>
      Message(groups[i].target, groups[i].incoming, groups[i].timestamp, groups[i].order,
              AnswerOf(Items(groups), i)))
  }

  ghost function Project(previous: Option<Projection>, snapshot: Snapshot): Result<Projection, string> {
    if !snapshot.usable then Err("native-window-incomplete")
    else if previous.Some? && previous.value.kind != snapshot.kind then Err("evidence-kind-changed")
    else if |snapshot.events| > LIMIT then Err("native-window-invalid")
    else
      var window :- Window(snapshot.events);
      var events :- Merge(if previous.Some? then previous.value.events else [], window, snapshot.hasMore);
      var parts :- MergeParts(if previous.Some? then previous.value.parts else [], snapshot.parts);
      var groups :- Sequence(events, parts);
      var boundary := NextBoundary(previous, snapshot.hasMore, groups);
      var complete := snapshot.kind.NativeComplete?
                      && (!snapshot.hasMore || (previous.Some? && previous.value.complete));
      Ok(Projection(snapshot.kind, events, parts, boundary, complete, Messages(Shown(groups, boundary))))
  }

  // ------------------------------------------------------------------ what a window may change

  lemma JoinedLedger(prior: seq<Event>, kept: seq<Event>, more: seq<Event>)
    requires Unique(prior) && Unique(more) && |kept| == |prior|
    requires forall i | 0 <= i < |prior| :: kept[i].nativeId == prior[i].nativeId
    requires forall e | e in more :: e.nativeId !in Ids(prior)
    ensures Unique(kept + more) && Ids(kept + more) == Ids(prior) + Ids(more)
  {
    var all := kept + more;
    forall i, j | 0 <= i < j < |all| ensures all[i].nativeId != all[j].nativeId {
      if i < |prior| <= j {
        assert prior[i] in prior && more[j - |prior|] in more;
      }
    }
    forall id ensures id in Ids(all) <==> id in Ids(prior) + Ids(more) {
      if id in Ids(prior) {
        var i :| 0 <= i < |prior| && prior[i].nativeId == id;
        assert all[i].nativeId == id;
      } else if id in Ids(more) {
        var i :| 0 <= i < |more| && more[i].nativeId == id;
        assert all[|prior| + i].nativeId == id;
      }
      if id in Ids(all) {
        var i :| 0 <= i < |all| && all[i].nativeId == id;
        if i < |prior| {
          assert prior[i] in prior;
        } else {
          assert more[i - |prior|] in more;
        }
      }
    }
  }

  // A ledger keeps every event it held, at its place in time, and gains the window's.
  lemma LedgerOnlyGrows(previous: Projection, snapshot: Snapshot, next: Projection)
    requires Project(Some(previous), snapshot) == Ok(next) && Unique(previous.events)
    ensures
      && Unique(next.events)
      && Ids(next.events) == Ids(previous.events) + Ids(snapshot.events)
      && |previous.events| <= |next.events|
      && forall i | 0 <= i < |previous.events| :: Continues(previous.events[i], next.events[i])
  {
    MergeGrows(previous.events, snapshot.events, snapshot.hasMore);
  }

  lemma MergeGrows(prior: seq<Event>, window: seq<Event>, hasMore: bool)
    requires Unique(prior) && Unique(window) && Merge(prior, window, hasMore).Ok?
    ensures var events := Merge(prior, window, hasMore).value;
      && Unique(events) && Ids(events) == Ids(prior) + Ids(window) && |prior| <= |events|
      && forall i | 0 <= i < |prior| :: Continues(prior[i], events[i])
  {
    var kept, more := RefreshAll(prior, window).value, Unseen(window, prior);
    UnseenUnique(window, prior);
    JoinedLedger(prior, kept, more);
    forall id ensures id in Ids(prior) + Ids(more) <==> id in Ids(prior) + Ids(window) {
      if id in Ids(window) && id !in Ids(prior) {
        var e :| e in window && e.nativeId == id;
        assert e in more;
      }
    }
  }

  lemma UnseenUnique(window: seq<Event>, prior: seq<Event>)
    requires Unique(window)
    ensures Unique(Unseen(window, prior))
  {
    if window != [] {
      var front := window[..|window| - 1];
      UnseenUnique(front, prior);
      forall e | e in Unseen(front, prior) ensures e.nativeId != window[|window| - 1].nativeId {
        assert e in front;
      }
    }
  }

  // ------------------------------------------------------------------ what a message is

  // Event i of the order starts a message, or is a further sent part of the one before.
  ghost predicate Joins(ordered: seq<Event>, owner: seq<nat>, groups: seq<Group>, parts: seq<Part>, i: nat)
    requires i < |ordered| == |owner| && owner[i] < |groups|
  {
    var g := groups[owner[i]];
    if i == 0 || owner[i - 1] != owner[i] then
      owner[i] == (if i == 0 then 0 else owner[i - 1] + 1) && g.incoming == ordered[i].incoming
    else
      !ordered[i].incoming && ordered[i].nativeId in PartIds(parts, g.target)
  }

  // A message has the time and order of its last event.
  ghost predicate Ends(ordered: seq<Event>, owner: seq<nat>, groups: seq<Group>, i: nat)
    requires i < |ordered| == |owner| && owner[i] < |groups|
  {
    i == |owner| - 1 || owner[i + 1] != owner[i] ==>
      groups[owner[i]].timestamp == ordered[i].timestamp && groups[owner[i]].order == ordered[i].order
  }

  // `owner` says which message every event belongs to: messages are contiguous, differ in
  // target, point the way of their first event, and take time and order from their last.
  ghost predicate Divides(ordered: seq<Event>, owner: seq<nat>, groups: seq<Group>,
                          aliases: map<string, EventId>, parts: seq<Part>)
  {
    && |owner| == |ordered| && UniqueTargets(groups)
    && |groups| == (if owner == [] then 0 else owner[|owner| - 1] + 1)
    && (forall i: nat | i < |owner| :: owner[i] < |groups|)
    && (forall i: nat | i < |owner| :: TargetOf(ordered[i], aliases) == Some(groups[owner[i]].target))
    && (forall i: nat | i < |owner| :: Joins(ordered, owner, groups, parts, i))
    && (forall i: nat | i < |owner| :: Ends(ordered, owner, groups, i))
  }

  lemma DividesStart(ordered: seq<Event>, owner: seq<nat>, groups: seq<Group>, e: Event, g: Group,
                     aliases: map<string, EventId>, parts: seq<Part>)
    requires Divides(ordered, owner, groups, aliases, parts) && UniqueTargets(groups + [g])
    requires TargetOf(e, aliases) == Some(g.target) && g.incoming == e.incoming
    requires g.timestamp == e.timestamp && g.order == e.order
    ensures Divides(ordered + [e], owner + [|groups|], groups + [g], aliases, parts)
  {
    var all, to, next := ordered + [e], owner + [|groups|], groups + [g];
    forall i: nat | i < |owner| ensures Joins(all, to, next, parts, i) && Ends(all, to, next, i) {
      assert Joins(ordered, owner, groups, parts, i) && Ends(ordered, owner, groups, i);
    }
  }

  lemma TargetsKept(groups: seq<Group>, k: nat, g: Group)
    requires UniqueTargets(groups) && k < |groups| && g.target == groups[k].target
    ensures UniqueTargets(groups[k := g])
  {}

  lemma DividesJoin(ordered: seq<Event>, owner: seq<nat>, groups: seq<Group>, e: Event, g: Group,
                    aliases: map<string, EventId>, parts: seq<Part>)
    requires Divides(ordered, owner, groups, aliases, parts) && groups != []
    requires g == groups[|groups| - 1].(timestamp := e.timestamp, order := e.order)
    requires TargetOf(e, aliases) == Some(g.target) && !e.incoming && e.nativeId in PartIds(parts, g.target)
    ensures Divides(ordered + [e], owner + [|groups| - 1], groups[|groups| - 1 := g], aliases, parts)
  {
    hide PartIds, TargetOf;
    var k := |groups| - 1;
    var all, to, next := ordered + [e], owner + [k], groups[k := g];
    forall i: nat | i < |owner| ensures Joins(all, to, next, parts, i) && Ends(all, to, next, i) {
      assert Joins(ordered, owner, groups, parts, i) && Ends(ordered, owner, groups, i);
      if i < |owner| - 1 {
        assert Joins(ordered, owner, groups, parts, i + 1);
      }
    }
    assert Joins(all, to, next, parts, |owner|);
    TargetsKept(groups, k, g);
  }

  lemma AddedDivides(ordered: seq<Event>, owner: seq<nat>, before: seq<Group>, e: Event, after: seq<Group>,
                     aliases: map<string, EventId>, parts: seq<Part>)
    requires Divides(ordered, owner, before, aliases, parts) && UniqueTargets(after)
    requires AddToGroups(before, e, aliases, parts) == Ok(after)
    ensures after != [] && Divides(ordered + [e], owner + [|after| - 1], after, aliases, parts)
  {
    var target := TargetOf(e, aliases).value;
    if HasGroup(before, target) {
      DividesJoin(ordered, owner, before, e, after[|after| - 1], aliases, parts);
    } else {
      DividesStart(ordered, owner, before, e, after[|after| - 1], aliases, parts);
    }
  }

  // Every projected ledger is divided into messages that way.
  lemma {:induction false} GroupsDivide(ordered: seq<Event>, aliases: map<string, EventId>, parts: seq<Part>)
    returns (owner: seq<nat>)
    requires Groups(ordered, aliases, parts).Ok?
    ensures Divides(ordered, owner, Groups(ordered, aliases, parts).value, aliases, parts)
  {
    owner := [];
    if ordered != [] {
      var front, e := ordered[..|ordered| - 1], ordered[|ordered| - 1];
      owner := GroupsDivide(front, aliases, parts);
      var before := Groups(front, aliases, parts).value;
      var after := Groups(ordered, aliases, parts).value;
      AddedDivides(front, owner, before, e, after, aliases, parts);
      assert ordered == front + [e];
      owner := owner + [|after| - 1];
    }
  }

  // The messages as they stood before the last event.
  function WithoutLast(ordered: seq<Event>, owner: seq<nat>, groups: seq<Group>): seq<Group>
    requires |ordered| == |owner| > 0 && |groups| == owner[|owner| - 1] + 1
  {
    var n, k := |owner| - 1, |groups| - 1;
    if n > 0 && owner[n - 1] == owner[n] then
      groups[k := groups[k].(timestamp := ordered[n - 1].timestamp, order := ordered[n - 1].order)]
    else groups[..k]
  }

  lemma LastIsAdded(ordered: seq<Event>, owner: seq<nat>, groups: seq<Group>,
                    aliases: map<string, EventId>, parts: seq<Part>)
    requires ordered != [] && Divides(ordered, owner, groups, aliases, parts)
    ensures AddToGroups(WithoutLast(ordered, owner, groups), ordered[|ordered| - 1], aliases, parts) == Ok(groups)
  {
    var n := |owner| - 1;
    var before, e, g := WithoutLast(ordered, owner, groups), ordered[n], groups[owner[n]];
    assert Joins(ordered, owner, groups, parts, n) && Ends(ordered, owner, groups, n);
    if n > 0 && owner[n - 1] == owner[n] {
      assert before[owner[n]].target == g.target;
      assert before[owner[n] := g] == groups;
    } else {
      assert before + [g] == groups;
      assert !HasGroup(before, g.target);
    }
  }

  lemma WithoutLastAt(ordered: seq<Event>, owner: seq<nat>, groups: seq<Group>,
                      aliases: map<string, EventId>, parts: seq<Part>, i: nat)
    requires Divides(ordered, owner, groups, aliases, parts) && i < |owner| - 1
    ensures var n := |owner| - 1;
      var before := WithoutLast(ordered, owner, groups);
      && owner[i] < |before| && TargetOf(ordered[i], aliases) == Some(before[owner[i]].target)
      && Joins(ordered[..n], owner[..n], before, parts, i) && Ends(ordered[..n], owner[..n], before, i)
  {
    var n := |owner| - 1;
    assert Joins(ordered, owner, groups, parts, n);
    OwnersRise(ordered, owner, groups, aliases, parts, i, n - 1);
    assert Joins(ordered, owner, groups, parts, i) && Ends(ordered, owner, groups, i);
    if i < n - 1 {
      OwnersRise(ordered, owner, groups, aliases, parts, i, i + 1);
      OwnersRise(ordered, owner, groups, aliases, parts, i + 1, n - 1);
    }
    hide Divides, PartIds;
    WithoutLastOwner(ordered, owner, groups, parts, i);
  }

  // What one event's owner and its neighbours say of it does not change with the last taken.
  lemma WithoutLastOwner(ordered: seq<Event>, owner: seq<nat>, groups: seq<Group>, parts: seq<Part>, i: nat)
    requires |ordered| == |owner| > i + 1 && |groups| == owner[|owner| - 1] + 1
    requires i + 1 < |owner| - 1 ==> owner[i] <= owner[i + 1] <= owner[|owner| - 2]
    requires owner[i] <= owner[|owner| - 2] <= owner[|owner| - 1] <= owner[|owner| - 2] + 1
    requires Joins(ordered, owner, groups, parts, i) && Ends(ordered, owner, groups, i)
    ensures var n := |owner| - 1;
      var before := WithoutLast(ordered, owner, groups);
      && owner[i] < |before| && before[owner[i]].target == groups[owner[i]].target
      && Joins(ordered[..n], owner[..n], before, parts, i) && Ends(ordered[..n], owner[..n], before, i)
  {
    hide PartIds;
  }

  lemma WithoutLastDivides(ordered: seq<Event>, owner: seq<nat>, groups: seq<Group>,
                           aliases: map<string, EventId>, parts: seq<Part>)
    requires ordered != [] && Divides(ordered, owner, groups, aliases, parts)
    ensures Divides(ordered[..|ordered| - 1], owner[..|owner| - 1], WithoutLast(ordered, owner, groups), aliases, parts)
  {
    var n := |owner| - 1;
    var before, events, to := WithoutLast(ordered, owner, groups), ordered[..n], owner[..n];
    WithoutLastTargets(ordered, owner, groups, parts);
    hide Joins, Ends, PartIds, TargetOf, WithoutLast;
    forall i: nat | i < n
      ensures to[i] < |before| && TargetOf(events[i], aliases) == Some(before[to[i]].target)
      ensures Joins(events, to, before, parts, i) && Ends(events, to, before, i)
    {
      WithoutLastAt(ordered, owner, groups, aliases, parts, i);
    }
  }

  lemma WithoutLastTargets(ordered: seq<Event>, owner: seq<nat>, groups: seq<Group>, parts: seq<Part>)
    requires |ordered| == |owner| > 0 && |groups| == owner[|owner| - 1] + 1 && UniqueTargets(groups)
    requires Joins(ordered, owner, groups, parts, |owner| - 1)
    ensures UniqueTargets(WithoutLast(ordered, owner, groups))
    ensures |WithoutLast(ordered, owner, groups)| == if |owner| == 1 then 0 else owner[|owner| - 2] + 1
  {
    hide PartIds;
  }

  lemma {:induction false} OwnersRise(ordered: seq<Event>, owner: seq<nat>, groups: seq<Group>,
                                      aliases: map<string, EventId>, parts: seq<Part>, i: nat, j: nat)
    requires Divides(ordered, owner, groups, aliases, parts) && i <= j < |owner|
    ensures owner[i] <= owner[j]
    decreases j
  {
    if i < j {
      assert Joins(ordered, owner, groups, parts, j);
      OwnersRise(ordered, owner, groups, aliases, parts, i, j - 1);
    }
  }

  // And no other reading is possible: whatever divides the events that way is the result.
  lemma {:induction false} DivisionIsGroups(ordered: seq<Event>, owner: seq<nat>, groups: seq<Group>,
                                            aliases: map<string, EventId>, parts: seq<Part>)
    requires Divides(ordered, owner, groups, aliases, parts)
    ensures Groups(ordered, aliases, parts) == Ok(groups)
    decreases |ordered|
  {
    if ordered != [] {
      WithoutLastDivides(ordered, owner, groups, aliases, parts);
      LastIsAdded(ordered, owner, groups, aliases, parts);
      DivisionIsGroups(ordered[..|ordered| - 1], owner[..|owner| - 1], WithoutLast(ordered, owner, groups),
                       aliases, parts);
    }
  }

  // ------------------------------------------------------------------ links across windows

  function Visible(s: seq<Item>, boundary: Option<EventId>): seq<Item> {
    if s == [] then []
    else
      var x := s[|s| - 1];
      Visible(s[..|s| - 1], boundary) + (if Some(x.id) == boundary then [] else [x])
  }

  ghost predicate UniqueItems(s: seq<Item>) {
    forall i, j | 0 <= i < j < |s| :: s[i].id != s[j].id
  }

  ghost predicate Linked(s: seq<Item>, m: EventId, a: EventId) {
    exists i: nat, j: nat :: Answers(s, i, j) && s[i].id == m && s[j].id == a
  }

  ghost predicate Between(s: seq<Item>, boundary: Option<EventId>, m: EventId, a: EventId) {
    exists i: nat, k: nat, j: nat | i < k < j < |s| ::
      s[i].id == m && Some(s[k].id) == boundary && s[j].id == a
  }

  lemma {:induction false} VisibleSplit(s: seq<Item>, t: seq<Item>, boundary: Option<EventId>)
    ensures Visible(s + t, boundary) == Visible(s, boundary) + Visible(t, boundary)
  {
    if t == [] {
      assert s + t == s;
    } else {
      VisibleSplit(s, t[..|t| - 1], boundary);
      assert (s + t)[..|s + t| - 1] == s + t[..|t| - 1];
    }
  }

  lemma {:induction false} AllVisible(s: seq<Item>, boundary: Option<EventId>)
    requires forall k: nat | k < |s| :: Some(s[k].id) != boundary
    ensures Visible(s, boundary) == s
  {
    if s != [] {
      var front, x := s[..|s| - 1], s[|s| - 1];
      assert Visible(s, boundary) == Visible(front, boundary) + [x];
      hide Visible;
      AllVisible(front, boundary);
      assert s == front + [x];
    }
  }

  lemma LinkedMoves(p: seq<Item>, s: seq<Item>, t: seq<Item>, m: EventId, a: EventId)
    requires Linked(s, m, a)
    ensures Linked(p + s + t, m, a)
  {
    var i: nat, j: nat :| Answers(s, i, j) && s[i].id == m && s[j].id == a;
    AnswersMove(p, s, t, i, j);
    var w := p + s + t;
    assert w[|p| + i].id == m && w[|p| + j].id == a;
  }

  lemma LinkedAt(s: seq<Item>, i: nat, j: nat)
    requires i < |s| && j < |s| && UniqueItems(s)
    ensures Linked(s, s[i].id, s[j].id) <==> Answers(s, i, j)
  {}

  lemma BetweenAt(s: seq<Item>, i: nat, k: nat, j: nat)
    requires i < |s| && k < |s| && j < |s| && UniqueItems(s)
    ensures Between(s, Some(s[k].id), s[i].id, s[j].id) <==> i < k < j
  {}

  lemma UniqueInside(p: seq<Item>, s: seq<Item>, t: seq<Item>)
    requires UniqueItems(p + s + t)
    ensures UniqueItems(s)
  {
    forall i, j | 0 <= i < j < |s| ensures s[i].id != s[j].id {
      assert (p + s + t)[|p| + i] == s[i] && (p + s + t)[|p| + j] == s[j];
    }
  }

  // The boundary message stops being one: a link lasts exactly if it does not span it.
  lemma BoundaryDropped(p: seq<Item>, u: seq<Item>, b: Item, v: seq<Item>, t: seq<Item>, m: EventId, a: EventId)
    requires UniqueItems(p + (u + [b] + v) + t) && Linked(u + v, m, a)
    ensures Linked(p + (u + [b] + v) + t, m, a) <==> !Between(u + [b] + v, Some(b.id), m, a)
  {
    var i: nat, j: nat :| Answers(u + v, i, j) && (u + v)[i].id == m && (u + v)[j].id == a;
    LinkSurvivesIff(p, u, b, v, t, i, j);
    SpansBoundary(p, u, b, v, t, i, j);
  }

  lemma SpansBoundary(p: seq<Item>, u: seq<Item>, b: Item, v: seq<Item>, t: seq<Item>, i: nat, j: nat)
    requires UniqueItems(p + (u + [b] + v) + t) && i < |u + v| && j < |u + v|
    ensures Between(u + [b] + v, Some(b.id), (u + v)[i].id, (u + v)[j].id) <==> i < |u| <= j
    ensures Linked(p + (u + [b] + v) + t, (u + v)[i].id, (u + v)[j].id)
            <==> Answers(p + (u + [b] + v) + t, |p| + Shifted(u, i), |p| + Shifted(u, j))
  {
    var s, w := u + [b] + v, p + (u + [b] + v) + t;
    var x, y := Shifted(u, i), Shifted(u, j);
    assert s[x] == (u + v)[i] && s[y] == (u + v)[j] && s[|u|] == b;
    assert w[|p| + x] == s[x] && w[|p| + y] == s[y];
    UniqueInside(p, s, t);
    BetweenAt(s, x, |u|, y);
    LinkedAt(w, |p| + x, |p| + y);
  }

  // A window adds messages around those of the ledger and may end the boundary's role.
  // Every link lasts unless the boundary, now shown, lies between message and answer.
  lemma LinksSurviveIff(p: seq<Item>, s: seq<Item>, t: seq<Item>, before: Option<EventId>, after: Option<EventId>,
                        m: EventId, a: EventId)
    requires UniqueItems(p + s + t) && (after == before || after == None)
    requires Linked(Visible(s, before), m, a)
    ensures Linked(Visible(p + s + t, after), m, a) <==> after == before || !Between(s, before, m, a)
  {
    if after == before {
      VisibleSplit(p + s, t, before);
      VisibleSplit(p, s, before);
      LinkedMoves(Visible(p, before), Visible(s, before), Visible(t, before), m, a);
    } else {
      AllVisible(p + s + t, None);
      if k: nat :| k < |s| && Some(s[k].id) == before {
        VisibleWithout(p, s, t, k);
        assert s == s[..k] + [s[k]] + s[k + 1..];
        BoundaryDropped(p, s[..k], s[k], s[k + 1..], t, m, a);
      } else {
        AllVisible(s, before);
        LinkedMoves(p, s, t, m, a);
      }
    }
  }

  lemma VisibleWithout(p: seq<Item>, s: seq<Item>, t: seq<Item>, k: nat)
    requires UniqueItems(p + s + t) && k < |s|
    ensures Visible(s, Some(s[k].id)) == s[..k] + s[k + 1..]
  {
    hide *;
    UniqueInside(p, s, t);
    AroundUnique(s, k);
    Around(s, k);
    VisibleElsewhere(s[..k], s[k], s[k + 1..]);
  }

  lemma Around(s: seq<Item>, k: nat)
    requires k < |s|
    ensures s[..k] + [s[k]] + s[k + 1..] == s
  {}

  lemma AroundUnique(s: seq<Item>, k: nat)
    requires UniqueItems(s) && k < |s|
    ensures forall i: nat | i < |s[..k]| :: s[..k][i].id != s[k].id
    ensures var v := s[k + 1..]; forall i: nat | i < |v| :: v[i].id != s[k].id
  {}

  lemma VisibleElsewhere(u: seq<Item>, b: Item, v: seq<Item>)
    requires forall k: nat | k < |u| :: u[k].id != b.id
    requires forall k: nat | k < |v| :: v[k].id != b.id
    ensures Visible(u + [b] + v, Some(b.id)) == u + v
  {
    var hidden := Some(b.id);
    VisibleSplit(u + [b], v, hidden);
    AllVisible(u, hidden);
    AllVisible(v, hidden);
    assert Visible(u + [b], hidden) == u by {
      assert (u + [b])[..|u|] == u;
    }
  }

  ghost predicate Links(messages: seq<Message>, m: EventId, a: EventId) {
    exists i | 0 <= i < |messages| :: messages[i].eventId == m && messages[i].answeredBy == Some(a)
  }

  lemma AnswerOfIs(s: seq<Item>, i: nat, j: nat)
    requires Answers(s, i, j)
    ensures AnswerOf(s, i) == Some(s[j].id)
  {
    forall k: nat | Answers(s, i, k) ensures k == j {
      AnswersUnique(s, i, j, k);
    }
  }

  // The links of a projection are those the counting specification calls for.
  lemma LinksAreAnswers(groups: seq<Group>, m: EventId, a: EventId)
    ensures Links(Messages(groups), m, a) <==> Linked(Items(groups), m, a)
  {
    var s, messages := Items(groups), Messages(groups);
    if i: nat, j: nat :| Answers(s, i, j) && s[i].id == m && s[j].id == a {
      AnswerOfIs(s, i, j);
      assert messages[i].eventId == m && messages[i].answeredBy == Some(a);
    }
    if i :| 0 <= i < |messages| && messages[i].eventId == m && messages[i].answeredBy == Some(a) {
      var j: nat :| Answers(s, i, j) && s[j].id == a;
    }
  }

  lemma {:induction false} ShownItems(groups: seq<Group>, boundary: Option<EventId>)
    ensures Items(Shown(groups, boundary)) == Visible(Items(groups), boundary)
  {
    if groups != [] {
      ShownItems(groups[..|groups| - 1], boundary);
      assert Items(groups)[..|groups| - 1] == Items(groups[..|groups| - 1]);
    }
  }

  // What every stored projection is: the links of its own ledger.
  ghost predicate IsProjection(p: Projection) {
    && Sequence(p.events, p.parts).Ok?
    && p.messages == Messages(Shown(Sequence(p.events, p.parts).value, p.boundary))
  }

  ghost function ItemsOf(p: Projection): seq<Item>
    requires IsProjection(p)
  {
    Items(Sequence(p.events, p.parts).value)
  }

  lemma LinksOfProjection(p: Projection, m: EventId, a: EventId)
    requires IsProjection(p)
    ensures Links(p.messages, m, a) <==> Linked(Visible(ItemsOf(p), p.boundary), m, a)
  {
    var groups := Sequence(p.events, p.parts).value;
    LinksAreAnswers(Shown(groups, p.boundary), m, a);
    ShownItems(groups, p.boundary);
  }

  lemma ProjectShape(previous: Option<Projection>, snapshot: Snapshot, next: Projection)
    requires Project(previous, snapshot) == Ok(next)
    ensures IsProjection(next)
    ensures previous.Some? ==> next.boundary == if snapshot.hasMore then previous.value.boundary else None
  {
    hide Window, Merge, MergeParts, Sequence, Messages, Shown;
  }

  lemma ItemsUnique(p: Projection)
    requires IsProjection(p)
    ensures UniqueItems(ItemsOf(p))
  {
    var groups := Sequence(p.events, p.parts).value;
    forall i, j | 0 <= i < j < |groups| ensures Items(groups)[i].id != Items(groups)[j].id {}
  }
}

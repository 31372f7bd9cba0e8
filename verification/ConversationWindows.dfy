/**
 What a further window does to the answers of a stored conversation, from the window and the
 stored ledger alone: when every link lasts, and windows by which one gets lost.
 */
module ConversationWindows {
  import opened Wrappers
  import opened ReplyPairing
  import opened ConversationTracking
  import opened ConversationParts

  // ------------------------------------------------------------------ stored ledgers

  // What projecting window after window leads to.
  ghost predicate Stored(p: Projection) {
    IsProjection(p) && Unique(p.events) && OneEntryEach(p.parts)
  }

  function PriorEvents(previous: Option<Projection>): seq<Event> {
    if previous.Some? then previous.value.events else []
  }

  function PriorParts(previous: Option<Projection>): seq<Part> {
    if previous.Some? then previous.value.parts else []
  }

  lemma ProjectSteps(previous: Option<Projection>, snapshot: Snapshot, next: Projection)
    requires Project(previous, snapshot) == Ok(next)
    ensures Unique(snapshot.events) && Window(snapshot.events).Ok?
    ensures Merge(PriorEvents(previous), snapshot.events, snapshot.hasMore) == Ok(next.events)
    ensures MergeParts(PriorParts(previous), snapshot.parts) == Ok(next.parts)
  {
    hide Merge, MergeParts, Sequence, Messages, Shown;
  }

  // A first window's projection, and the next of one that is stored, can be stored.
  lemma ProjectIsStored(previous: Option<Projection>, snapshot: Snapshot, next: Projection)
    requires Project(previous, snapshot) == Ok(next) && (previous.Some? ==> Stored(previous.value))
    ensures Stored(next)
  {
    ProjectShape(previous, snapshot, next);
    ProjectSteps(previous, snapshot, next);
    MergePartsIff(PriorParts(previous), snapshot.parts);
    MergeGrows(PriorEvents(previous), snapshot.events, snapshot.hasMore);
  }

  // ------------------------------------------------------------------ windows around a ledger

  predicate IsNew(previous: Projection, e: Event) {
    e.nativeId !in Ids(previous.events)
  }

  predicate Before(e: Event, events: seq<Event>) {
    forall x | x in events :: Value(e.order) < Value(x.order)
  }

  predicate After(e: Event, events: seq<Event>) {
    forall x | x in events :: Value(e.order) > Value(x.order)
  }

  // A window adds to a stored conversation on its ends only: each new event comes before all
  // or after all of the ledger's, none that comes in carries the id of a stored message, and
  // no message that becomes known in parts claims a native event of the ledger.
  ghost predicate AddsAround(previous: Projection, snapshot: Snapshot)
    requires IsProjection(previous)
  {
    && (forall e | e in snapshot.events && IsNew(previous, e) ::
          Before(e, previous.events) || After(e, previous.events))
    && (forall e, x | e in snapshot.events && IsNew(previous, e) && e.incoming && x in ItemsOf(previous) ::
          e.eventId != Some(x.id))
    && (forall p, id | p in snapshot.parts && !HasPart(previous.parts, p.target) && id in p.ids ::
          id !in Ids(previous.events))
  }

  // ------------------------------------------------------------------ the order of events

  ghost predicate AllBefore(low: seq<Event>, events: seq<Event>) {
    forall e | e in low :: Before(e, events)
  }

  ghost predicate AllAfter(high: seq<Event>, events: seq<Event>) {
    forall e | e in high :: After(e, events)
  }

  lemma SortHolds(events: seq<Event>)
    ensures forall e :: e in SortByOrder(events) <==> e in events
  {
    forall e ensures e in SortByOrder(events) <==> e in events {
      assert e in SortByOrder(events) <==> e in multiset(SortByOrder(events));
      assert e in events <==> e in multiset(events);
    }
  }

  lemma InsertedBefore(low: seq<Event>, rest: seq<Event>, e: Event) returns (l: seq<Event>)
    requires Ordered(low + rest) && forall x | x in rest :: Value(e.order) < Value(x.order)
    ensures InsertByOrder(low + rest, e) == l + rest && forall x :: x in l <==> x in low || x == e
  {
    hide Value, Ordered;
    var s := low + rest;
    var k := Place(s, |s|, e);
    assert k <= |low|;
    l := low[..k] + [e] + low[k..];
    assert s[..k] + [e] + s[k..] == l + rest;
    hide Place, InsertByOrder;
    InsertedInto(low, k, e);
  }

  lemma InsertedInto(s: seq<Event>, k: nat, e: Event)
    requires k <= |s|
    ensures forall x :: x in s[..k] + [e] + s[k..] <==> x in s || x == e
  {
    assert s == s[..k] + s[k..];
  }

  lemma InsertedAfter(rest: seq<Event>, high: seq<Event>, e: Event) returns (h: seq<Event>)
    requires Ordered(rest + high) && forall x | x in rest :: Value(e.order) > Value(x.order)
    ensures InsertByOrder(rest + high, e) == rest + h && forall x :: x in h <==> x in high || x == e
  {
    hide Value, Ordered;
    var s := rest + high;
    var k := Place(s, |s|, e);
    assert k >= |rest|;
    var j := k - |rest|;
    h := high[..j] + [e] + high[j..];
    assert s[..k] + [e] + s[k..] == rest + h;
    hide Place, InsertByOrder;
    InsertedInto(high, j, e);
  }

  // Sorting puts what comes before the ledger in front of it and the rest behind it.
  lemma {:induction false} SortAround(kept: seq<Event>, more: seq<Event>) returns (low: seq<Event>, high: seq<Event>)
    requires kept != [] && forall e | e in more :: Before(e, kept) || After(e, kept)
    ensures SortByOrder(kept + more) == low + SortByOrder(kept) + high
    ensures AllBefore(low, kept) && AllAfter(high, kept)
    ensures forall e | e in low || e in high :: e in more
    decreases |more|
  {
    hide SortByOrder, InsertByOrder, Value, Before, After, Ordered;
    if more == [] {
      low, high := [], [];
      assert kept + more == kept;
    } else {
      var front, e := more[..|more| - 1], more[|more| - 1];
      assert more == front + [e];
      var l, h := SortAround(kept, front);
      SortOneMore(kept + front, e);
      assert kept + more == (kept + front) + [e];
      low, high := InsertAround(kept, l, h, e);
    }
  }

  lemma SortOneMore(events: seq<Event>, e: Event)
    ensures SortByOrder(events + [e]) == InsertByOrder(SortByOrder(events), e)
  {
    assert (events + [e])[..|events|] == events;
  }

  lemma InsertAround(kept: seq<Event>, low: seq<Event>, high: seq<Event>, e: Event) returns (l: seq<Event>, h: seq<Event>)
    requires kept != [] && AllBefore(low, kept) && AllAfter(high, kept) && (Before(e, kept) || After(e, kept))
    requires Ordered(low + SortByOrder(kept) + high)
    ensures InsertByOrder(low + SortByOrder(kept) + high, e) == l + SortByOrder(kept) + h
    ensures AllBefore(l, kept) && AllAfter(h, kept)
    ensures forall x | x in l || x in h :: x in low || x in high || x == e
  {
    var mid := SortByOrder(kept);
    SortHolds(kept);
    hide SortByOrder, InsertByOrder, Value, Before, After, Ordered;
    l, h := low, high;
    if Before(e, kept) {
      BelowAll(e, kept, mid, high);
      assert low + mid + high == low + (mid + high);
      l := InsertedBefore(low, mid + high, e);
      assert l + (mid + high) == l + mid + high;
    } else {
      AboveAll(e, kept, mid, low);
      h := InsertedAfter(low + mid, high, e);
    }
  }

  lemma BelowAll(e: Event, kept: seq<Event>, mid: seq<Event>, high: seq<Event>)
    requires kept != [] && Before(e, kept) && AllAfter(high, kept) && forall x :: x in mid <==> x in kept
    ensures forall x | x in mid + high :: Value(e.order) < Value(x.order)
  {
    assert kept[0] in kept;
  }

  lemma AboveAll(e: Event, kept: seq<Event>, mid: seq<Event>, low: seq<Event>)
    requires kept != [] && After(e, kept) && AllBefore(low, kept) && forall x :: x in mid <==> x in kept
    ensures forall x | x in low + mid :: Value(e.order) > Value(x.order)
  {
    assert kept[0] in kept;
  }

  ghost predicate ContinuesAll(prior: seq<Event>, kept: seq<Event>) {
    |kept| == |prior| && forall i | 0 <= i < |prior| :: Continues(prior[i], kept[i])
  }

  lemma {:induction false} SamePlaceFound(prior: seq<Event>, kept: seq<Event>, n: nat, e: Event, x: Event)
    requires ContinuesAll(prior, kept) && n <= |prior| && Continues(e, x)
    ensures Place(kept, n, x) == Place(prior, n, e)
  {
    if n > 0 {
      assert Continues(prior[n - 1], kept[n - 1]);
      SamePlaceFound(prior, kept, n - 1, e, x);
    }
  }

  lemma InsertContinues(s: seq<Event>, t: seq<Event>, e: Event, x: Event)
    requires Ordered(s) && Ordered(t) && ContinuesAll(s, t) && Continues(e, x)
    ensures ContinuesAll(InsertByOrder(s, e), InsertByOrder(t, x))
  {
    hide Continues, Place, Ordered, Value;
    SamePlaceFound(s, t, |s|, e, x);
    var k := Place(s, |s|, e);
    var r, q := s[..k] + [e] + s[k..], t[..k] + [x] + t[k..];
    assert InsertByOrder(s, e) == r && InsertByOrder(t, x) == q;
    hide InsertByOrder;
    forall i | 0 <= i < |r| ensures Continues(r[i], q[i]) {
      if i > k {
        assert r[i] == s[i - 1] && q[i] == t[i - 1];
      }
    }
  }

  // Events that were mapped meanwhile are sorted as before.
  lemma {:induction false} SortContinues(prior: seq<Event>, kept: seq<Event>)
    requires ContinuesAll(prior, kept)
    ensures ContinuesAll(SortByOrder(prior), SortByOrder(kept))
  {
    if prior != [] {
      var n := |prior| - 1;
      assert prior == prior[..n] + [prior[n]] && kept == kept[..n] + [kept[n]];
      hide SortByOrder, Continues;
      SortContinues(prior[..n], kept[..n]);
      SortOneMore(prior[..n], prior[n]);
      SortOneMore(kept[..n], kept[n]);
      InsertContinues(SortByOrder(prior[..n]), SortByOrder(kept[..n]), prior[n], kept[n]);
    }
  }

  // ------------------------------------------------------------------ the messages of the ledger

  // How native ids are read as messages.
  datatype Reading = Reading(aliases: map<string, EventId>, parts: seq<Part>)

  function GroupsBy(ordered: seq<Event>, r: Reading): (groups: Result<seq<Group>, string>)
    ensures groups.Ok? ==> UniqueTargets(groups.value)
  {
    Groups(ordered, r.aliases, r.parts)
  }

  function AddBy(groups: seq<Group>, e: Event, r: Reading): Result<seq<Group>, string> {
    AddToGroups(groups, e, r.aliases, r.parts)
  }

  // An event is read as the same message as before, and as a part of it if it was one.
  ghost predicate ReadsAlike(o: Event, before: Reading, e: Event, now: Reading) {
    && Continues(o, e) && TargetOf(e, now.aliases) == TargetOf(o, before.aliases)
    && (TargetOf(o, before.aliases).Some? ==>
          var target := TargetOf(o, before.aliases).value;
          e.nativeId in PartIds(now.parts, target) <==> o.nativeId in PartIds(before.parts, target))
  }

  lemma GroupsOneMore(ordered: seq<Event>, e: Event, r: Reading)
    requires GroupsBy(ordered + [e], r).Ok?
    ensures GroupsBy(ordered, r).Ok? && GroupsBy(ordered + [e], r) == AddBy(GroupsBy(ordered, r).value, e, r)
  {
    assert (ordered + [e])[..|ordered|] == ordered;
  }

  // Behind the messages of another stretch the next event does what it did before.
  lemma AddsAlike(base: seq<Group>, groups: seq<Group>, o: Event, before: Reading, e: Event, now: Reading)
    requires groups != [] && ReadsAlike(o, before, e, now)
    requires AddBy(groups, o, before).Ok? && AddBy(base + groups, e, now).Ok?
    ensures AddBy(base + groups, e, now) == Ok(base + AddBy(groups, o, before).value)
  {
    hide PartIds;
    var all, n := base + groups, |groups| - 1;
    assert all[|all| - 1] == groups[n];
    var target := TargetOf(o, before.aliases).value;
    if HasGroup(groups, target) {
      assert HasGroup(all, target);
      var g := groups[n].(timestamp := e.timestamp, order := e.order);
      assert all[|all| - 1 := g] == base + groups[n := g];
    } else {
      var g := Group(target, e.incoming, e.timestamp, e.order);
      assert HasGroup(all, target) ==> all[|all| - 1].target != target by {
        assert groups[n] in groups;
      }
      assert all + [g] == base + (groups + [g]);
    }
  }

  // The first event of the ledger may find that its message was begun by one before it.
  lemma FirstAddsAlike(low: seq<Group>, o: Event, before: Reading, e: Event, now: Reading) returns (base: seq<Group>)
    requires ReadsAlike(o, before, e, now) && AddBy([], o, before).Ok? && AddBy(low, e, now).Ok?
    requires low != [] && TargetOf(e, now.aliases) == Some(low[|low| - 1].target) ==> !low[|low| - 1].incoming
    ensures AddBy(low, e, now) == Ok(base + AddBy([], o, before).value)
  {
    hide PartIds;
    var target := TargetOf(o, before.aliases).value;
    var g := Group(target, e.incoming, e.timestamp, e.order);
    assert AddBy([], o, before) == Ok([g]) by {
      assert !HasGroup([], target) && [] + [g] == [g];
    }
    if HasGroup(low, target) {
      base := low[..|low| - 1];
      assert low[|low| - 1 := g] == base + [g];
    } else {
      base := low;
    }
  }

  ghost predicate ReadAlike(prior: seq<Event>, before: Reading, kept: seq<Event>, now: Reading) {
    |kept| == |prior| && forall i | 0 <= i < |prior| :: ReadsAlike(prior[i], before, kept[i], now)
  }

  // The last of the messages in front was not begun by an incoming event under the id of the
  // message that comes next.
  ghost predicate NoClash(low: seq<Event>, e: Event, now: Reading) {
    GroupsBy(low, now).Ok? && GroupsBy(low, now).value != [] ==>
      var last := GroupsBy(low, now).value[|GroupsBy(low, now).value| - 1];
      TargetOf(e, now.aliases) == Some(last.target) ==> !last.incoming
  }

  // So the ledger's events form the messages they formed, behind whatever comes before.
  lemma {:induction false} KeepsGroups(low: seq<Event>, prior: seq<Event>, before: Reading, kept: seq<Event>, now: Reading)
    returns (base: seq<Group>)
    requires prior != [] && ReadAlike(prior, before, kept, now)
    requires GroupsBy(prior, before).Ok? && GroupsBy(low + kept, now).Ok? && NoClash(low, kept[0], now)
    ensures GroupsBy(low + kept, now) == Ok(base + GroupsBy(prior, before).value)
    ensures GroupsBy(prior, before).value != []
    decreases |prior|
  {
    hide TargetOf, PartIds, Continues;
    var n := |prior| - 1;
    var o, e := prior[n], kept[n];
    assert prior == prior[..n] + [o] && low + kept == (low + kept[..n]) + [e];
    GroupsOneMore(prior[..n], o, before);
    GroupsOneMore(low + kept[..n], e, now);
    assert ReadsAlike(o, before, e, now);
    if n == 0 {
      assert prior[..0] == [] && low + kept[..0] == low;
      hide ReadsAlike, AddBy;
      base := FirstAddsAlike(GroupsBy(low, now).value, o, before, e, now);
    } else {
      base := KeepsGroups(low, prior[..n], before, kept[..n], now);
      AddsAlike(base, GroupsBy(prior[..n], before).value, o, before, e, now);
    }
  }

  lemma AddKeepsItems(groups: seq<Group>, e: Event, r: Reading)
    requires AddBy(groups, e, r).Ok?
    ensures Items(groups) <= Items(AddBy(groups, e, r).value) && AddBy(groups, e, r).value != []
  {
    hide PartIds;
  }

  // Events behind add messages behind.
  lemma {:induction false} ItemsExtend(ordered: seq<Event>, high: seq<Event>, r: Reading)
    requires GroupsBy(ordered + high, r).Ok?
    ensures GroupsBy(ordered, r).Ok? && Items(GroupsBy(ordered, r).value) <= Items(GroupsBy(ordered + high, r).value)
    decreases |high|
  {
    if high == [] {
      assert ordered + high == ordered;
    } else {
      var front, e := high[..|high| - 1], high[|high| - 1];
      assert ordered + high == (ordered + front) + [e];
      GroupsOneMore(ordered + front, e, r);
      ItemsExtend(ordered, front, r);
      hide GroupsBy, AddBy, Items;
      AddKeepsItems(GroupsBy(ordered + front, r).value, e, r);
    }
  }

  ghost predicate Opens(e: Event, g: Group, r: Reading) {
    TargetOf(e, r.aliases) == Some(g.target) && e.incoming == g.incoming
  }

  // Every message is opened by an event, and points its way.
  lemma {:induction false} OpenedBy(ordered: seq<Event>, r: Reading, k: nat) returns (e: Event)
    requires GroupsBy(ordered, r).Ok? && k < |GroupsBy(ordered, r).value|
    ensures e in ordered && Opens(e, GroupsBy(ordered, r).value[k], r)
  {
    var front, last := ordered[..|ordered| - 1], ordered[|ordered| - 1];
    assert ordered == front + [last];
    GroupsOneMore(front, last, r);
    hide PartIds;
    if k < |GroupsBy(front, r).value| {
      e := OpenedBy(front, r, k);
    } else {
      e := last;
    }
  }

  lemma TargetHasGroup(ordered: seq<Event>, r: Reading, i: nat)
    requires GroupsBy(ordered, r).Ok? && i < |ordered|
    ensures TargetOf(ordered[i], r.aliases).Some?
    ensures HasGroup(GroupsBy(ordered, r).value, TargetOf(ordered[i], r.aliases).value)
  {
    var owner := GroupsDivide(ordered, r.aliases, r.parts);
  }

  // ------------------------------------------------------------------ the same reading

  ghost function ReadingOf(p: Projection): Reading
    requires IsProjection(p)
  {
    Reading(Aliases(p.parts, p.events).value, p.parts)
  }

  lemma ProjectionReads(p: Projection)
    requires IsProjection(p)
    ensures Aliases(p.parts, p.events).Ok?
    ensures MapsParts(ReadingOf(p).aliases, p.parts) && AllDelivered(p.parts, p.events)
    ensures GroupsBy(SortByOrder(p.events), ReadingOf(p)) == Sequence(p.events, p.parts)
    ensures ItemsOf(p) == Items(GroupsBy(SortByOrder(p.events), ReadingOf(p)).value)
  {
    AliasesIff(p.parts, p.events);
  }

  // No message that becomes known in parts claims a native event of the ledger.
  ghost predicate ClaimsNoneOf(prior: seq<Event>, parts: seq<Part>, incoming: seq<Part>) {
    forall p, id | p in incoming && !HasPart(parts, p.target) && id in p.ids :: id !in Ids(prior)
  }

  ghost predicate Partwise(prior: seq<Event>, before: Reading, incoming: seq<Part>, now: Reading) {
    && OneEntryEach(before.parts) && Merged(before.parts, incoming, now.parts)
    && MapsParts(before.aliases, before.parts) && MapsParts(now.aliases, now.parts)
    && ClaimsNoneOf(prior, before.parts, incoming)
  }

  lemma OwnedBefore(prior: seq<Event>, before: Reading, incoming: seq<Part>, now: Reading, id: string, x: Part)
    requires Partwise(prior, before, incoming, now) && id in Ids(prior) && x in now.parts && id in x.ids
    ensures id in before.aliases
  {
    hide Ids, OneEntryEach;
    if x !in before.parts {
      assert HasPart(before.parts, x.target);
      var q :| q in before.parts && q.target == x.target;
      assert SameIds(q, x) && id in AsSet(x.ids) && id in q.ids;
    }
  }

  // Of a native event of the ledger, the parts say what they said.
  lemma SameOwner(prior: seq<Event>, before: Reading, incoming: seq<Part>, now: Reading, id: string)
    requires Partwise(prior, before, incoming, now) && id in Ids(prior)
    ensures id in now.aliases <==> id in before.aliases
    ensures id in before.aliases ==> now.aliases[id] == before.aliases[id]
  {
    hide Ids, OneEntryEach;
    if id in before.aliases {
      var p :| p in before.parts && id in p.ids;
      var x :| x in now.parts && x.target == p.target;
      assert SameIds(p, x) && id in AsSet(p.ids) && id in x.ids;
    }
    if id in now.aliases {
      var x :| x in now.parts && id in x.ids;
      OwnedBefore(prior, before, incoming, now, id, x);
    }
  }

  lemma SameParts(prior: seq<Event>, before: Reading, incoming: seq<Part>, now: Reading, id: string, target: EventId)
    requires Partwise(prior, before, incoming, now) && id in Ids(prior)
    ensures id in PartIds(now.parts, target) <==> id in PartIds(before.parts, target)
  {
    hide Ids, OneEntryEach, MapsParts;
    if p :| p in before.parts && p.target == target {
      PartIdsOf(before.parts, p);
      var x :| x in now.parts && x.target == target;
      PartIdsOf(now.parts, x);
      assert SameIds(p, x);
      assert id in AsSet(p.ids) <==> id in p.ids;
      assert id in AsSet(x.ids) <==> id in x.ids;
    } else {
      NoPartIds(before.parts, target);
      if x :| x in now.parts && x.target == target {
        PartIdsOf(now.parts, x);
      } else {
        NoPartIds(now.parts, target);
      }
    }
  }

  lemma EventReadsAlike(prior: seq<Event>, before: Reading, incoming: seq<Part>, now: Reading, o: Event, e: Event)
    requires Partwise(prior, before, incoming, now) && o in prior && Continues(o, e)
    requires TargetOf(o, before.aliases).Some?
    ensures ReadsAlike(o, before, e, now)
  {
    SameOwner(prior, before, incoming, now, o.nativeId);
    SameParts(prior, before, incoming, now, o.nativeId, TargetOf(o, before.aliases).value);
  }

  // ------------------------------------------------------------------ a window around a ledger

  lemma LookupFinds(events: seq<Event>, e: Event)
    requires Unique(events) && e in events
    ensures Lookup(events, e.nativeId) == Some(e)
  {
    var x := Lookup(events, e.nativeId).value;
    var i, j :| 0 <= i < |events| && 0 <= j < |events| && events[i] == e && events[j] == x;
  }

  // What projecting a window around a stored ledger is about, by the pieces.
  ghost predicate Pieces(previous: Projection, next: Projection, low: seq<Event>, kept: seq<Event>, high: seq<Event>)
    requires IsProjection(previous) && IsProjection(next)
  {
    && SortByOrder(next.events) == low + kept + high
    && ReadAlike(SortByOrder(previous.events), ReadingOf(previous), kept, ReadingOf(next))
  }

  lemma MergedPieces(previous: Projection, snapshot: Snapshot, next: Projection)
    returns (low: seq<Event>, kept: seq<Event>, high: seq<Event>)
    requires Stored(previous) && Stored(next) && Project(Some(previous), snapshot) == Ok(next)
    requires AddsAround(previous, snapshot) && previous.events != []
    ensures Pieces(previous, next, low, kept, high)
    ensures forall e | e in low :: e in next.events && e in snapshot.events && IsNew(previous, e)
  {
    ProjectSteps(Some(previous), snapshot, next);
    PartwiseAgain(previous, snapshot, next);
    var again, more := MergedLedger(previous, snapshot, next);
    hide *;
    low, high := SortAround(again, more);
    kept := SortByOrder(again);
    SortContinues(previous.events, again);
    RestReadsAlike(previous, snapshot, next, kept);
    PiecesAre(previous, next, low, kept, high);
  }

  lemma PiecesAre(previous: Projection, next: Projection, low: seq<Event>, kept: seq<Event>, high: seq<Event>)
    requires IsProjection(previous) && IsProjection(next) && SortByOrder(next.events) == low + kept + high
    requires ReadAlike(SortByOrder(previous.events), ReadingOf(previous), kept, ReadingOf(next))
    ensures Pieces(previous, next, low, kept, high)
  {}

  // The ledger's events, perhaps mapped since, and the new ones, all before or after them.
  lemma MergedLedger(previous: Projection, snapshot: Snapshot, next: Projection)
    returns (again: seq<Event>, more: seq<Event>)
    requires IsProjection(previous) && AddsAround(previous, snapshot)
    requires Merge(previous.events, snapshot.events, snapshot.hasMore) == Ok(next.events)
    ensures next.events == again + more && ContinuesAll(previous.events, again)
    ensures forall e | e in more :: e in next.events && e in snapshot.events && IsNew(previous, e)
    ensures forall e | e in more :: Before(e, again) || After(e, again)
  {
    again := RefreshAll(previous.events, snapshot.events).value;
    more := Unseen(snapshot.events, previous.events);
    hide Before, After, Lower, Lookup, Continues, Value, ItemsOf, RefreshAll, Unseen, Refreshed;
    forall e | e in more ensures Before(e, again) || After(e, again) {
      SameEnds(previous.events, again, e);
    }
  }

  lemma SameEnds(prior: seq<Event>, again: seq<Event>, e: Event)
    requires ContinuesAll(prior, again)
    ensures Before(e, prior) ==> Before(e, again)
    ensures After(e, prior) ==> After(e, again)
  {
    forall x | x in again ensures exists o | o in prior :: o.order == x.order {
      var i :| 0 <= i < |again| && again[i] == x;
      assert Continues(prior[i], again[i]) && prior[i] in prior;
    }
  }

  lemma PartwiseAgain(previous: Projection, snapshot: Snapshot, next: Projection)
    requires Stored(previous) && Stored(next) && Project(Some(previous), snapshot) == Ok(next)
    requires AddsAround(previous, snapshot)
    ensures Partwise(previous.events, ReadingOf(previous), snapshot.parts, ReadingOf(next))
  {
    ProjectSteps(Some(previous), snapshot, next);
    MergePartsIff(previous.parts, snapshot.parts);
    ProjectionReads(previous);
    ProjectionReads(next);
    hide Project, Merged, MapsParts, ItemsOf, Ids, OneEntryEach, IsProjection;
  }

  lemma RestReadsAlike(previous: Projection, snapshot: Snapshot, next: Projection, kept: seq<Event>)
    requires Stored(previous) && Stored(next)
    requires Partwise(previous.events, ReadingOf(previous), snapshot.parts, ReadingOf(next))
    requires ContinuesAll(SortByOrder(previous.events), kept)
    ensures ReadAlike(SortByOrder(previous.events), ReadingOf(previous), kept, ReadingOf(next))
  {
    ProjectionReads(previous);
    SortHolds(previous.events);
    hide Partwise, ReadsAlike, Continues, SortByOrder, Stored;
    var prior := SortByOrder(previous.events);
    forall i | 0 <= i < |prior| ensures ReadsAlike(prior[i], ReadingOf(previous), kept[i], ReadingOf(next)) {
      TargetHasGroup(prior, ReadingOf(previous), i);
      EventReadsAlike(previous.events, ReadingOf(previous), snapshot.parts, ReadingOf(next), prior[i], kept[i]);
    }
  }

  // A message before the ledger is not an incoming one under the id of a stored message.
  lemma LowDoesNotClash(previous: Projection, snapshot: Snapshot, next: Projection, low: seq<Event>, e: Event)
    requires Stored(previous) && Stored(next) && AddsAround(previous, snapshot)
    requires forall x | x in low :: x in next.events && x in snapshot.events && IsNew(previous, x)
    requires TargetOf(e, ReadingOf(next).aliases).Some?
    requires exists x | x in ItemsOf(previous) :: TargetOf(e, ReadingOf(next).aliases) == Some(x.id)
    ensures NoClash(low, e, ReadingOf(next))
  {
    var now := ReadingOf(next);
    ProjectionReads(next);
    if GroupsBy(low, now).Ok? && GroupsBy(low, now).value != [] {
      var k := |GroupsBy(low, now).value| - 1;
      var last := GroupsBy(low, now).value[k];
      var x := OpenedBy(low, now, k);
      if TargetOf(e, now.aliases) == Some(last.target) && last.incoming {
        if x.nativeId in now.aliases {
          var p :| p in next.parts && x.nativeId in p.ids;
          assert Delivered(next.events, x.nativeId);
          LookupFinds(next.events, x);
        }
        assert false;
      }
    }
  }

  lemma FirstIsStored(previous: Projection, next: Projection, kept: seq<Event>)
    requires IsProjection(previous) && IsProjection(next) && previous.events != []
    requires ReadAlike(SortByOrder(previous.events), ReadingOf(previous), kept, ReadingOf(next))
    ensures kept != [] && TargetOf(kept[0], ReadingOf(next).aliases).Some?
    ensures exists x | x in ItemsOf(previous) :: TargetOf(kept[0], ReadingOf(next).aliases) == Some(x.id)
  {
    var prior := SortByOrder(previous.events);
    ProjectionReads(previous);
    SortHolds(previous.events);
    assert previous.events[0] in prior;
    TargetHasGroup(prior, ReadingOf(previous), 0);
    assert ReadsAlike(prior[0], ReadingOf(previous), kept[0], ReadingOf(next));
    var groups := GroupsBy(prior, ReadingOf(previous)).value;
    var g :| g in groups && g.target == TargetOf(prior[0], ReadingOf(previous).aliases).value;
    var k :| 0 <= k < |groups| && groups[k] == g;
    assert Items(groups)[k] in Items(groups);
  }

  // Such a window leaves the messages of the ledger together, and adds before and behind.
  lemma ItemsAround(previous: Projection, snapshot: Snapshot, next: Projection)
    returns (before: seq<Item>, after: seq<Item>)
    requires Stored(previous) && previous.events != [] && AddsAround(previous, snapshot)
    requires Project(Some(previous), snapshot) == Ok(next)
    ensures IsProjection(next) && ItemsOf(next) == before + ItemsOf(previous) + after
  {
    ProjectIsStored(Some(previous), snapshot, next);
    var low, kept, high := MergedPieces(previous, snapshot, next);
    FirstIsStored(previous, next, kept);
    LowDoesNotClash(previous, snapshot, next, low, kept[0]);
    ProjectionReads(previous);
    ProjectionReads(next);
    hide Stored, AddsAround, Project, SortByOrder, ReadAlike, NoClash, GroupsBy, ItemsOf;
    before, after := ItemsByPieces(SortByOrder(previous.events), ReadingOf(previous), low, kept, high, ReadingOf(next));
  }

  lemma ItemsByPieces(prior: seq<Event>, was: Reading, low: seq<Event>, kept: seq<Event>, high: seq<Event>, now: Reading)
    returns (before: seq<Item>, after: seq<Item>)
    requires prior != [] && ReadAlike(prior, was, kept, now) && GroupsBy(prior, was).Ok?
    requires GroupsBy(low + kept + high, now).Ok? && NoClash(low, kept[0], now)
    ensures Items(GroupsBy(low + kept + high, now).value) == before + Items(GroupsBy(prior, was).value) + after
  {
    ItemsExtend(low + kept, high, now);
    var base := KeepsGroups(low, prior, was, kept, now);
    hide GroupsBy, ReadAlike, NoClash;
    var groups, all := GroupsBy(prior, was).value, Items(GroupsBy(low + kept + high, now).value);
    before := Items(base);
    assert Items(base + groups) == before + Items(groups);
    after := all[|base + groups|..];
    assert all == Items(base + groups) + after;
  }

  // Such a window ends a link of the stored projection if and only if nothing more is behind
  // it and the boundary message, now shown, lies between message and answer.
  lemma ProjectedLinksSurviveIff(previous: Projection, snapshot: Snapshot, next: Projection, m: EventId, a: EventId)
    requires Stored(previous) && Links(previous.messages, m, a)
    requires Project(Some(previous), snapshot) == Ok(next) && AddsAround(previous, snapshot)
    ensures Links(next.messages, m, a)
            <==> snapshot.hasMore || previous.boundary == None || !Between(ItemsOf(previous), previous.boundary, m, a)
  {
    if previous.events == [] {
      NothingLinked(previous, m, a);
    }
    var before, after := ItemsAround(previous, snapshot, next);
    ProjectShape(Some(previous), snapshot, next);
    ItemsUnique(next);
    LinksOfProjection(previous, m, a);
    LinksOfProjection(next, m, a);
    hide IsProjection, ItemsOf, Linked, Links, Between, UniqueItems, Visible, Project;
    LinksSurviveIff(before, ItemsOf(previous), after, previous.boundary, next.boundary, m, a);
  }

  lemma NothingLinked(p: Projection, m: EventId, a: EventId)
    requires IsProjection(p) && p.events == []
    ensures !Links(p.messages, m, a)
  {
    assert SortByOrder([]) == [];
    assert Sequence(p.events, p.parts).value == [];
  }

  // ------------------------------------------------------------------ three windows

  lemma {:induction false} WindowAccepts(values: seq<Event>)
    requires Unique(values) && forall e | e in values :: WellFormed(e)
    ensures Window(values) == Ok(values)
  {
    if values != [] {
      var front, e := values[..|values| - 1], values[|values| - 1];
      assert values == front + [e];
      WindowAccepts(front);
      assert e.nativeId !in Ids(front);
    }
  }

  // A window that shows the ledger's events as they are adds what it does not know.
  lemma {:induction false} RefreshSame(prior: seq<Event>, window: seq<Event>)
    requires Unique(window) && forall e | e in prior :: e in window
    ensures RefreshAll(prior, window) == Ok(prior)
  {
    if prior != [] {
      var front, e := prior[..|prior| - 1], prior[|prior| - 1];
      assert prior == front + [e];
      RefreshSame(front, window);
      LookupFinds(window, e);
    }
  }

  lemma MergeSame(prior: seq<Event>, window: seq<Event>, hasMore: bool)
    requires Unique(window) && (forall e | e in prior :: e in window) && |prior| + |window| <= LIMIT
    ensures Merge(prior, window, hasMore) == Ok(prior + Unseen(window, prior))
  {
    hide RefreshAll, Lower, Value, Unseen;
    RefreshSame(prior, window);
    UnseenShort(window, prior);
    SharedIds(prior, window);
    hide Ids;
  }

  lemma SharedIds(prior: seq<Event>, window: seq<Event>)
    requires forall e | e in prior :: e in window
    ensures prior != [] ==> !(Ids(prior) !! Ids(window))
    ensures forall e | e in prior :: e.nativeId in Ids(window)
  {
    if prior != [] {
      assert prior[0].nativeId in Ids(prior) && prior[0].nativeId in Ids(window);
    }
  }

  lemma {:induction false} UnseenShort(window: seq<Event>, prior: seq<Event>)
    ensures |Unseen(window, prior)| <= |window|
  {
    if window != [] {
      UnseenShort(window[..|window| - 1], prior);
    }
  }

  function Alone(e: Event): Group
    requires e.eventId.Some?
  {
    Group(e.eventId.value, e.incoming, e.timestamp, e.order)
  }

  function EachAlone(ordered: seq<Event>): (groups: seq<Group>)
    requires forall e | e in ordered :: e.eventId.Some?
    ensures |groups| == |ordered| && forall i | 0 <= i < |ordered| :: groups[i] == Alone(ordered[i])
  {
    if ordered == [] then [] else EachAlone(ordered[..|ordered| - 1]) + [Alone(ordered[|ordered| - 1])]
  }

  // Without parts every event is a message.
  lemma {:induction false} EventsAreMessages(ordered: seq<Event>)
    requires forall e | e in ordered :: e.eventId.Some?
    requires forall i, j | 0 <= i < j < |ordered| :: ordered[i].eventId != ordered[j].eventId
    ensures Groups(ordered, map[], []) == Ok(EachAlone(ordered))
  {
    if ordered != [] {
      var front, e := ordered[..|ordered| - 1], ordered[|ordered| - 1];
      assert forall x | x in front :: x in ordered;
      EventsAreMessages(front);
      var groups := EachAlone(front);
      hide EachAlone;
      forall g | g in groups ensures g.target != e.eventId.value {
        var i :| 0 <= i < |groups| && groups[i] == g;
        assert front[i] == ordered[i];
      }
    }
  }

  predicate Follows(e: Event, f: Event) {
    Value(e.order) < Value(f.order) && e.order != f.order && e.timestamp <= f.timestamp
    && e.nativeId != f.nativeId && e.eventId != f.eventId
  }

  // A sent message, an incoming one, and another incoming one, in this order, all mapped.
  predicate InOrder(p: Event, b: Event, x: Event) {
    && WellFormed(p) && WellFormed(b) && WellFormed(x)
    && p.eventId.Some? && b.eventId.Some? && x.eventId.Some?
    && !p.incoming && b.incoming && x.incoming
    && Follows(p, b) && Follows(b, x) && Follows(p, x)
  }

  lemma WindowsAccepted(p: Event, b: Event, x: Event)
    requires InOrder(p, b, x)
    ensures Window([b, x]) == Ok([b, x]) && Window([p, b, x]) == Ok([p, b, x])
  {
    hide Window;
    WindowAccepts([b, x]);
    WindowAccepts([p, b, x]);
  }

  lemma UnseenOneByOne(prior: seq<Event>, window: seq<Event>, e: Event)
    ensures Unseen(window + [e], prior)
            == if e.nativeId in Ids(prior) then Unseen(window, prior) else Unseen(window, prior) + [e]
  {
    assert Unseen(window, prior) + [] == Unseen(window, prior);
    assert (window + [e])[..|window|] == window;
  }

  lemma UnseenOfNone(prior: seq<Event>)
    ensures Unseen([], prior) == []
  {}

  lemma UnseenOfTwo(prior: seq<Event>, b: Event, x: Event)
    ensures b.nativeId in Ids(prior) && x.nativeId in Ids(prior) ==> Unseen([b, x], prior) == []
    ensures b.nativeId !in Ids(prior) && x.nativeId !in Ids(prior) ==> Unseen([b, x], prior) == [b, x]
  {
    hide Ids, Unseen;
    UnseenOfNone(prior);
    UnseenOneByOne(prior, [], b);
    UnseenOneByOne(prior, [b], x);
    assert [] + [b] == [b] && [b] + [x] == [b, x];
  }

  lemma UnseenOfThree(prior: seq<Event>, p: Event, b: Event, x: Event)
    requires b.nativeId in Ids(prior) && x.nativeId in Ids(prior)
    ensures Unseen([p, b, x], prior) == if p.nativeId in Ids(prior) then [] else [p]
  {
    hide Ids, Unseen;
    UnseenOfNone(prior);
    UnseenOneByOne(prior, [], p);
    UnseenOneByOne(prior, [p], b);
    UnseenOneByOne(prior, [p, b], x);
    assert [] + [p] == [p] && [p] + [b] == [p, b] && [p, b] + [x] == [p, b, x];
  }

  lemma WindowsMerged(p: Event, b: Event, x: Event, hasMore: bool)
    requires InOrder(p, b, x)
    ensures Merge([], [b, x], hasMore) == Ok([b, x])
    ensures Merge([b, x], [p, b, x], hasMore) == Ok([b, x, p])
    ensures Merge([b, x, p], [p, b, x], hasMore) == Ok([b, x, p])
  {
    hide Merge, Unseen, Value, WellFormed;
    MergeSame([], [b, x], hasMore);
    MergeSame([b, x], [p, b, x], hasMore);
    MergeSame([b, x, p], [p, b, x], hasMore);
    IdsOf(p, b, x);
    hide Ids;
    UnseenOfTwo([], b, x);
    UnseenOfThree([b, x], p, b, x);
    UnseenOfThree([b, x, p], p, b, x);
    assert [b, x] + [p] == [b, x, p] && [b, x, p] + [] == [b, x, p] && [] + [b, x] == [b, x];
  }

  lemma IdsOf(p: Event, b: Event, x: Event)
    ensures Ids([]) == {} && Ids([b, x]) == {b.nativeId, x.nativeId}
    ensures Ids([b, x, p]) == {b.nativeId, x.nativeId, p.nativeId}
  {
    var two, three := [b, x], [b, x, p];
    assert b in two && x in two && b in three && x in three && p in three;
  }

  lemma NothingSorted()
    ensures SortByOrder([]) == []
  {}

  lemma SortedFirst(events: seq<Event>, s: seq<Event>, e: Event)
    requires SortByOrder(events) == s && forall x | x in s :: Value(e.order) < Value(x.order)
    ensures SortByOrder(events + [e]) == [e] + s
  {
    hide Value;
    SortOneMore(events, e);
    hide SortByOrder;
    assert Place(s, |s|, e) == 0;
  }

  lemma SortedLast(events: seq<Event>, s: seq<Event>, e: Event)
    requires SortByOrder(events) == s && forall x | x in s :: Value(e.order) > Value(x.order)
    ensures SortByOrder(events + [e]) == s + [e]
  {
    hide Value;
    SortOneMore(events, e);
    hide SortByOrder;
    assert Place(s, |s|, e) == |s|;
  }

  lemma LedgerSorted(p: Event, b: Event, x: Event)
    requires InOrder(p, b, x)
    ensures SortByOrder([b, x]) == [b, x] && SortByOrder([b, x, p]) == [p, b, x]
  {
    hide Value, WellFormed, SortByOrder, InsertByOrder, Ordered;
    NothingSorted();
    SortedFirst([], [], b);
    assert [] + [b] == [b] && [b] + [] == [b];
    SortedLast([b], [b], x);
    assert [b] + [x] == [b, x];
    SortedFirst([b, x], [b, x], p);
    assert [b, x] + [p] == [b, x, p] && [p] + [b, x] == [p, b, x];
  }

  lemma LedgerRead(p: Event, b: Event, x: Event)
    requires InOrder(p, b, x)
    ensures Sequence([b, x], []) == Ok([Alone(b), Alone(x)])
    ensures Sequence([b, x, p], []) == Ok([Alone(p), Alone(b), Alone(x)])
  {
    hide Value, WellFormed, SortByOrder, Groups, EachAlone;
    LedgerSorted(p, b, x);
    ReadAlone([b, x], [b, x]);
    ReadAlone([b, x, p], [p, b, x]);
    assert EachAlone([b, x]) == [Alone(b), Alone(x)];
    assert EachAlone([p, b, x]) == [Alone(p), Alone(b), Alone(x)];
  }

  lemma ReadAlone(events: seq<Event>, ordered: seq<Event>)
    requires SortByOrder(events) == ordered && OrdersDiffer(ordered) && TimesRise(ordered)
    requires forall e | e in ordered :: e.eventId.Some?
    requires forall i, j | 0 <= i < j < |ordered| :: ordered[i].eventId != ordered[j].eventId
    ensures Sequence(events, []) == Ok(EachAlone(ordered))
  {
    EventsAreMessages(ordered);
    hide SortByOrder, OrdersDiffer, TimesRise, Groups, EachAlone;
  }

  // A projection without parts, from what its steps come to.
  lemma ProjectsTo(previous: Option<Projection>, snapshot: Snapshot, events: seq<Event>, groups: seq<Group>)
    returns (next: Projection)
    requires snapshot.usable && snapshot.parts == [] && PriorParts(previous) == [] && |snapshot.events| <= LIMIT
    requires previous.Some? ==> previous.value.kind == snapshot.kind
    requires Window(snapshot.events) == Ok(snapshot.events)
    requires Merge(PriorEvents(previous), snapshot.events, snapshot.hasMore) == Ok(events)
    requires Sequence(events, []) == Ok(groups)
    ensures Project(previous, snapshot) == Ok(next)
    ensures next.kind == snapshot.kind && next.events == events && next.parts == []
    ensures next.boundary == NextBoundary(previous, snapshot.hasMore, groups)
    ensures next.messages == Messages(Shown(groups, next.boundary))
  {
    hide Window, Merge, Sequence, Messages, Shown;
    assert MergeParts([], []) == Ok([]);
    next := Project(previous, snapshot).value;
  }

  // The windows by which a link gets lost, whatever the events are: the first starts at b; the
  // next reaches back to p, which x then answers over the hidden b; the last is the same, but
  // nothing is behind it, and b answers p instead.
  lemma BoundaryReappears(kind: Evidence, p: Event, b: Event, x: Event)
    returns (first: Projection, second: Projection, third: Projection)
    requires InOrder(p, b, x)
    ensures Project(None, Snapshot(kind, true, true, [b, x], [])) == Ok(first)
    ensures Project(Some(first), Snapshot(kind, true, true, [p, b, x], [])) == Ok(second)
    ensures Project(Some(second), Snapshot(kind, true, false, [p, b, x], [])) == Ok(third)
    ensures Links(second.messages, p.eventId.value, x.eventId.value)
    ensures !Links(third.messages, p.eventId.value, x.eventId.value)
  {
    hide Project, Window, Merge, Sequence, Messages, Shown, Links, WellFormed, Value;
    WindowsAccepted(p, b, x);
    WindowsMerged(p, b, x, true);
    WindowsMerged(p, b, x, false);
    LedgerRead(p, b, x);
    first := ProjectsTo(None, Snapshot(kind, true, true, [b, x], []), [b, x], [Alone(b), Alone(x)]);
    var ledger, groups := [b, x, p], [Alone(p), Alone(b), Alone(x)];
    second := ProjectsTo(Some(first), Snapshot(kind, true, true, [p, b, x], []), ledger, groups);
    third := ProjectsTo(Some(second), Snapshot(kind, true, false, [p, b, x], []), ledger, groups);
    AnsweredOverHidden(Alone(b), Alone(x), Alone(p));
  }

  // There are such events.
  lemma SuchWindowsExist(p: EventId, b: EventId, x: EventId)
    requires p != b && p != x && b != x
    ensures InOrder(Event("p", "1", 1, false, Some(p)), Event("b", "2", 2, true, Some(b)),
                    Event("x", "3", 3, true, Some(x)))
  {
    assert Value("1") == 1 && Value("2") == 2 && Value("3") == 3;
  }

  lemma AnsweredOverHidden(b: Group, x: Group, p: Group)
    requires b.target != x.target && b.target != p.target && x.target != p.target
    requires b.incoming && x.incoming && !p.incoming
    ensures Links(Messages(Shown([p, b, x], Some(b.target))), p.target, x.target)
    ensures !Links(Messages(Shown([p, b, x], None)), p.target, x.target)
  {
    var s := Items([p, b, x]);
    LinksAreAnswers(Shown([p, b, x], Some(b.target)), p.target, x.target);
    LinksAreAnswers(Shown([p, b, x], None), p.target, x.target);
    ShownItems([p, b, x], Some(b.target));
    ShownItems([p, b, x], None);
    AllVisible(s, None);
    VisibleElsewhere(s[..1], s[1], s[2..]);
    assert s[..1] + [s[1]] + s[2..] == s;
    var shown := s[..1] + s[2..];
    assert Balance(shown, 0, 2) == -1 && Answers(shown, 0, 1);
    assert shown[0].id == p.target && shown[1].id == x.target;
    assert Balance(s, 0, 2) == -1 && Answers(s, 0, 1);
    forall i: nat, j: nat | Answers(s, i, j) && s[i].id == p.target ensures s[j].id == b.target {
      AnswersUnique(s, 0, 1, j);
    }
  }
}

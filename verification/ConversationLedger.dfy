/**
 When a window is accepted into a conversation's ledger and what it makes of it, said of the
 events themselves.
 */
module ConversationLedger {
  import opened Numerals
  import opened Wrappers
  import opened ReplyPairing
  import opened ConversationTracking
  import opened ConversationParts

  // ------------------------------------------------------------------ single events

  // The number an order stands for.
  lemma {:induction false} ValueReads(s: string)
    ensures Value(s) == Read(s)
  {
    if s != "" {
      ValueReads(s[..|s| - 1]);
    }
  }

  lemma ValueOfDigits(n: nat)
    ensures Value(Digits(n)) == n
  {
    ValueReads(Digits(n));
    DigitsRead(n);
  }

  lemma WellFormedIs(e: Event)
    ensures WellFormed(e) <==>
              && 1 <= |e.nativeId| <= 512 && 1 <= |e.order| <= 32 && (forall c | c in e.order :: '0' <= c <= '9')
              && e.timestamp >= 1
  {}

  // A part list names one to a hundred native ids, none empty and none twice.
  lemma PartShapeIs(p: Part)
    ensures PartShape(p) <==>
              && 1 <= |p.ids| <= 100 && (forall id | id in p.ids :: id != "")
              && forall i, j | 0 <= i < j < |p.ids| :: p.ids[i] != p.ids[j]
  {}

  // A native id is delivered if the ledger has its event, and that was sent.
  lemma DeliveredIff(events: seq<Event>, id: string)
    requires Unique(events)
    ensures Delivered(events, id) <==> exists e | e in events :: e.nativeId == id && !e.incoming
  {
    if e :| e in events && e.nativeId == id && !e.incoming {
      assert id in Ids(events);
      SameId(events, e, Lookup(events, id).value);
    }
  }

  // A message is shown with the time, order and direction of its group, but for the boundary.
  lemma ShownIs(groups: seq<Group>, boundary: Option<EventId>, m: Message)
    requires m in Messages(Shown(groups, boundary))
    ensures exists g | g in groups :: g.target == m.eventId && g.incoming == m.incoming && g.timestamp == m.timestamp
                                      && g.order == m.order && Some(g.target) != boundary
  {
    var shown := Shown(groups, boundary);
    var i :| 0 <= i < |shown| && Messages(shown)[i] == m;
    ShownFrom(groups, boundary);
    assert shown[i] in shown;
  }

  lemma {:induction false} ShownFrom(groups: seq<Group>, boundary: Option<EventId>)
    ensures forall g :: g in Shown(groups, boundary) <==> g in groups && Some(g.target) != boundary
  {
    if groups != [] {
      var front, g := groups[..|groups| - 1], groups[|groups| - 1];
      assert groups == front + [g];
      ShownFrom(front, boundary);
    }
  }

  // ------------------------------------------------------------------ the window

  // A window is read if and only if its events are well formed and no id comes twice.
  lemma {:induction false} WindowIff(values: seq<Event>)
    ensures Window(values).Ok? <==> Unique(values) && forall e | e in values :: WellFormed(e)
  {
    if values != [] {
      var front, e := values[..|values| - 1], values[|values| - 1];
      assert values == front + [e];
      WindowIff(front);
      UniqueOneMore(front, e);
      hide WellFormed, Ids;
    }
  }

  lemma UniqueOneMore(front: seq<Event>, e: Event)
    ensures Unique(front + [e]) <==> Unique(front) && e.nativeId !in Ids(front)
  {
    var all := front + [e];
    assert forall i | 0 <= i < |front| :: all[i] == front[i];
    if e.nativeId in Ids(front) {
      var i :| 0 <= i < |front| && front[i].nativeId == e.nativeId;
      assert all[i].nativeId == all[|front|].nativeId;
    }
  }

  // ------------------------------------------------------------------ the merge

  // The window shows an event of the ledger again.
  ghost predicate Overlaps(prior: seq<Event>, window: seq<Event>) {
    exists e, w | e in prior && w in window :: e.nativeId == w.nativeId
  }

  ghost predicate Shows(window: seq<Event>, e: Event) {
    exists w | w in window :: w.nativeId == e.nativeId
  }

  // What the ledger has and the window does not show is older than all it shows, and there is
  // more behind the window.
  ghost predicate NothingMissing(prior: seq<Event>, window: seq<Event>, hasMore: bool) {
    forall e | e in prior && !Shows(window, e) :: hasMore && forall w | w in window :: Value(e.order) < Value(w.order)
  }

  // Two accounts of one event agree, but that one may know what it is mapped to.
  predicate Agree(e: Event, w: Event) {
    && e.order == w.order && e.timestamp == w.timestamp && e.incoming == w.incoming
    && (e.eventId.Some? && w.eventId.Some? ==> e.eventId == w.eventId)
  }

  ghost predicate AllAgree(prior: seq<Event>, window: seq<Event>) {
    forall e, w | e in prior && w in window && e.nativeId == w.nativeId :: Agree(e, w)
  }

  ghost predicate Mergeable(prior: seq<Event>, window: seq<Event>, hasMore: bool) {
    && (prior == [] || Overlaps(prior, window))
    && NothingMissing(prior, window, hasMore) && AllAgree(prior, window)
    && |Ids(prior) + Ids(window)| <= 10000
  }

  // Every event of either, the ledger's in their places; a mapping known to one is kept.
  ghost predicate IsMerged(prior: seq<Event>, window: seq<Event>, events: seq<Event>) {
    && Unique(events) && Ids(events) == Ids(prior) + Ids(window) && |prior| <= |events|
    && (forall i | 0 <= i < |prior| && !Shows(window, prior[i]) :: events[i] == prior[i])
    && (forall i, w | 0 <= i < |prior| && w in window && w.nativeId == prior[i].nativeId ::
          events[i] == w.(eventId := if w.eventId.Some? then w.eventId else prior[i].eventId))
    && (forall i | |prior| <= i < |events| :: events[i] in window)
  }

  lemma {:induction false} UniqueCount(events: seq<Event>)
    requires Unique(events)
    ensures |Ids(events)| == |events|
  {
    if events != [] {
      var front, e := events[..|events| - 1], events[|events| - 1];
      assert events == front + [e];
      UniqueCount(front);
      UniqueOneMore(front, e);
      assert Ids(events) == Ids(front) + {e.nativeId};
    }
  }

  lemma ShowsIffIn(window: seq<Event>, e: Event)
    ensures Shows(window, e) <==> e.nativeId in Ids(window)
  {}

  lemma OverlapIff(prior: seq<Event>, window: seq<Event>)
    ensures Overlaps(prior, window) <==> !(Ids(prior) !! Ids(window))
  {
    if e, w :| e in prior && w in window && e.nativeId == w.nativeId {
      assert e.nativeId in Ids(prior) && e.nativeId in Ids(window);
    }
  }

  lemma LowerIs(events: seq<Event>, value: int)
    requires events != []
    ensures value < Lower(events) <==> forall w | w in events :: value < Value(w.order)
  {
    hide Value;
  }

  // The refusal of an incomplete window, in terms of its events.
  lemma MissingIff(prior: seq<Event>, window: seq<Event>, hasMore: bool)
    requires prior != [] ==> window != []
    ensures (exists e | e in prior :: e.nativeId !in Ids(window) && !(hasMore && Value(e.order) < Lower(window)))
            <==> !NothingMissing(prior, window, hasMore)
  {
    hide Value, Lower, Ids, Shows;
    forall e | e in prior
      ensures (e.nativeId !in Ids(window) && !(hasMore && Value(e.order) < Lower(window)))
              <==> (!Shows(window, e) && !(hasMore && forall w | w in window :: Value(e.order) < Value(w.order)))
    {
      LowerIs(window, Value(e.order));
      ShowsIffIn(window, e);
    }
  }

  lemma {:induction false} RefreshIff(prior: seq<Event>, window: seq<Event>)
    requires Unique(window)
    ensures RefreshAll(prior, window).Ok? <==> AllAgree(prior, window)
  {
    if prior != [] {
      var front, e := prior[..|prior| - 1], prior[|prior| - 1];
      assert prior == front + [e];
      RefreshIff(front, window);
      hide RefreshAll;
      assert AllAgree(prior, window) <==>
             AllAgree(front, window) && forall w | w in window && e.nativeId == w.nativeId :: Agree(e, w);
      OneRefreshed(front, e, window);
    }
  }

  lemma OneRefreshed(front: seq<Event>, e: Event, window: seq<Event>)
    requires Unique(window)
    ensures RefreshAll(front + [e], window).Ok? <==>
              RefreshAll(front, window).Ok? && forall w | w in window && e.nativeId == w.nativeId :: Agree(e, w)
  {
    assert (front + [e])[..|front|] == front;
    match Lookup(window, e.nativeId)
    case None =>
      assert forall w | w in window :: w.nativeId in Ids(window);
    case Some(now) =>
      forall w | w in window && w.nativeId == e.nativeId ensures w == now {
        SameId(window, w, now);
      }
  }

  lemma SameId(events: seq<Event>, e: Event, x: Event)
    requires Unique(events) && e in events && x in events && e.nativeId == x.nativeId
    ensures e == x
  {
    var i, j :| 0 <= i < |events| && 0 <= j < |events| && events[i] == e && events[j] == x;
  }

  lemma MergedEvents(prior: seq<Event>, window: seq<Event>)
    requires Unique(prior) && Unique(window) && RefreshAll(prior, window).Ok?
    ensures var events := RefreshAll(prior, window).value + Unseen(window, prior);
      IsMerged(prior, window, events) && |events| == |Ids(prior) + Ids(window)|
  {
    hide RefreshAll, Unseen, Unique, Ids, Lookup, Refreshed, Shows;
    var kept, more := RefreshAll(prior, window).value, Unseen(window, prior);
    var events := kept + more;
    UnseenUnique(window, prior);
    JoinedLedger(prior, kept, more);
    UnseenIds(prior, window);
    UniqueCount(events);
    hide Continues;
    forall i | 0 <= i < |prior|
      ensures !Shows(window, prior[i]) ==> events[i] == prior[i]
      ensures forall w | w in window && w.nativeId == prior[i].nativeId ::
                events[i] == w.(eventId := if w.eventId.Some? then w.eventId else prior[i].eventId)
    {
      assert events[i] == kept[i];
      RefreshedIs(prior[i], window);
    }
    forall i | |prior| <= i < |events| ensures events[i] in window {
      assert events[i] == more[i - |prior|];
    }
  }

  lemma UnseenIds(prior: seq<Event>, window: seq<Event>)
    ensures Ids(prior) + Ids(Unseen(window, prior)) == Ids(prior) + Ids(window)
  {
    forall id ensures id in Ids(prior) + Ids(Unseen(window, prior)) <==> id in Ids(prior) + Ids(window) {
      if id in Ids(window) && id !in Ids(prior) {
        var e :| e in window && e.nativeId == id;
        assert e in Unseen(window, prior);
      }
    }
  }

  lemma RefreshedIs(e: Event, window: seq<Event>)
    requires Unique(window)
    ensures !Shows(window, e) ==> Refreshed(e, window) == e
    ensures forall w | w in window && w.nativeId == e.nativeId ::
              Refreshed(e, window) == w.(eventId := if w.eventId.Some? then w.eventId else e.eventId)
  {
    ShowsIffIn(window, e);
    forall w | w in window && w.nativeId == e.nativeId
      ensures Refreshed(e, window) == w.(eventId := if w.eventId.Some? then w.eventId else e.eventId)
    {
      assert w.nativeId in Ids(window);
      SameId(window, w, Lookup(window, e.nativeId).value);
    }
  }

  // A window is merged into a ledger if and only if it shows something of it again, leaves
  // out only what may lie behind it, tells the same of what both know, and keeps the bound.
  lemma MergeIff(prior: seq<Event>, window: seq<Event>, hasMore: bool)
    requires Unique(prior) && Unique(window)
    ensures Merge(prior, window, hasMore).Ok? <==> Mergeable(prior, window, hasMore)
    ensures Merge(prior, window, hasMore).Ok? ==> IsMerged(prior, window, Merge(prior, window, hasMore).value)
    ensures Merge(prior, window, hasMore) == Err("native-window-gap") <==> prior != [] && !Overlaps(prior, window)
  {
    hide Unique, RefreshAll, Unseen, Ids, Lower, Value, NothingMissing, AllAgree, Overlaps, IsMerged;
    OverlapIff(prior, window);
    OverlapSome(prior, window);
    RefreshIff(prior, window);
    if prior == [] || Overlaps(prior, window) {
      MissingIff(prior, window, hasMore);
    }
    if RefreshAll(prior, window).Ok? {
      MergedEvents(prior, window);
    } else {
      RefreshErrors(prior, window);
    }
  }

  lemma OverlapSome(prior: seq<Event>, window: seq<Event>)
    ensures Overlaps(prior, window) ==> window != []
  {}

  lemma {:induction false} RefreshErrors(prior: seq<Event>, window: seq<Event>)
    requires RefreshAll(prior, window).Err?
    ensures RefreshAll(prior, window).error != "native-window-gap"
  {
    var front := prior[..|prior| - 1];
    if RefreshAll(front, window).Err? {
      RefreshErrors(front, window);
    }
  }

  // ------------------------------------------------------------------ the projection

  ghost predicate CanDivide(ordered: seq<Event>, aliases: map<string, EventId>, parts: seq<Part>) {
    exists owner, groups :: Divides(ordered, owner, groups, aliases, parts)
  }

  lemma GroupsIff(ordered: seq<Event>, aliases: map<string, EventId>, parts: seq<Part>)
    ensures Groups(ordered, aliases, parts).Ok? <==> CanDivide(ordered, aliases, parts)
  {
    hide Divides, Groups;
    if Groups(ordered, aliases, parts).Ok? {
      var owner := GroupsDivide(ordered, aliases, parts);
      assert Divides(ordered, owner, Groups(ordered, aliases, parts).value, aliases, parts);
    }
    if owner, groups :| Divides(ordered, owner, groups, aliases, parts) {
      DivisionIsGroups(ordered, owner, groups, aliases, parts);
    }
  }

  lemma SortLength(events: seq<Event>)
    ensures |SortByOrder(events)| == |events|
  {
    assert |multiset(SortByOrder(events))| == |multiset(events)|;
  }

  // A ledger is read as messages if and only if its parts are sent events named once, its
  // order is one and time does not run against it, and its events divide into messages.
  lemma SequenceIff(events: seq<Event>, parts: seq<Part>)
    ensures Sequence(events, parts).Ok? <==>
              && AllDelivered(parts, events) && NamedOnce(parts)
              && |SortByOrder(events)| == |events|
              && (forall i, j | 0 <= i < j < |events| :: SortByOrder(events)[i].order != SortByOrder(events)[j].order)
              && (forall i | 0 < i < |events| ::
                    SortByOrder(events)[i - 1].timestamp <= SortByOrder(events)[i].timestamp)
              && Aliases(parts, events).Ok? && CanDivide(SortByOrder(events), Aliases(parts, events).value, parts)
  {
    AliasesIff(parts, events);
    SortLength(events);
    hide AllDelivered, NamedOnce, CanDivide, SortByOrder, Aliases;
    if Aliases(parts, events).Ok? {
      GroupsIff(SortByOrder(events), Aliases(parts, events).value, parts);
    }
  }

  // What is asked of a window before anything of it is kept.
  predicate Usable(previous: Option<Projection>, snapshot: Snapshot) {
    && snapshot.usable && |snapshot.events| <= 10000
    && (previous.Some? ==> previous.value.kind == snapshot.kind)
  }

  ghost predicate WindowFits(prior: seq<Event>, known: seq<Part>, snapshot: Snapshot) {
    && Unique(snapshot.events) && (forall e | e in snapshot.events :: WellFormed(e))
    && Mergeable(prior, snapshot.events, snapshot.hasMore) && Agreeing(known, snapshot.parts)
  }

  function KnownEvents(previous: Option<Projection>): seq<Event> {
    if previous.Some? then previous.value.events else []
  }

  function KnownParts(previous: Option<Projection>): seq<Part> {
    if previous.Some? then previous.value.parts else []
  }

  // The ledger and parts that come of it.
  ghost predicate Readable(previous: Option<Projection>, snapshot: Snapshot) {
    exists events, parts ::
      && Merge(KnownEvents(previous), snapshot.events, snapshot.hasMore) == Ok(events)
      && MergeParts(KnownParts(previous), snapshot.parts) == Ok(parts)
      && Sequence(events, parts).Ok?
  }

  // A conversation is projected if and only if its window is usable and fits the ledger, and
  // the ledger it leads to can be read as messages; it stays complete once its beginning was
  // shown.
  lemma ProjectIff(previous: Option<Projection>, snapshot: Snapshot)
    requires Unique(KnownEvents(previous)) && OneEntryEach(KnownParts(previous))
    ensures Project(previous, snapshot).Ok? <==>
              && Usable(previous, snapshot) && WindowFits(KnownEvents(previous), KnownParts(previous), snapshot)
              && Readable(previous, snapshot)
    ensures Project(previous, snapshot).Ok? ==>
              var next := Project(previous, snapshot).value;
              && IsMerged(KnownEvents(previous), snapshot.events, next.events)
              && Merged(KnownParts(previous), snapshot.parts, next.parts)
              && next.kind == snapshot.kind
              && (next.complete <==> next.kind.NativeComplete?
                                     && (!snapshot.hasMore || (previous.Some? && previous.value.complete)))
  {
    var prior, known := KnownEvents(previous), KnownParts(previous);
    hide Mergeable, IsMerged, Agreeing, Merged, Unique, WellFormed, OneEntryEach, Window, Merge, MergeParts;
    WindowIff(snapshot.events);
    if Window(snapshot.events).Ok? {
      MergeIff(prior, snapshot.events, snapshot.hasMore);
    }
    MergePartsIff(known, snapshot.parts);
    hide Sequence, Messages, Shown;
  }
}

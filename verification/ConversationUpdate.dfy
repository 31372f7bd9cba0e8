/**
 The loops of the conversation projection, each equal to its part of the specification,
 and the set of messages a bounded state event keeps.
 */
module ConversationUpdate {
  import opened Wrappers
  import opened ReplyPairing
  import opened ConversationTracking
  import opened ConversationLedger
  import opened ConversationParts

  // ------------------------------------------------------------------ a refusal is final

  lemma {:induction false} WindowStops(values: seq<Event>, n: nat)
    requires n <= |values| && Window(values[..n]).Err?
    ensures Window(values) == Err(Window(values[..n]).error)
    decreases |values|
  {
    if n < |values| {
      assert values[..|values| - 1][..n] == values[..n];
      WindowStops(values[..|values| - 1], n);
    } else {
      assert values[..n] == values;
    }
  }

  lemma {:induction false} RefreshStops(prior: seq<Event>, window: seq<Event>, n: nat)
    requires n <= |prior| && RefreshAll(prior[..n], window).Err?
    ensures RefreshAll(prior, window) == RefreshAll(prior[..n], window)
    decreases |prior|
  {
    if n < |prior| {
      assert prior[..|prior| - 1][..n] == prior[..n];
      RefreshStops(prior[..|prior| - 1], window, n);
    } else {
      assert prior[..n] == prior;
    }
  }

  lemma {:induction false} PartsStop(parts: seq<Part>, incoming: seq<Part>, n: nat)
    requires n <= |incoming| && MergeParts(parts, incoming[..n]).Err?
    ensures MergeParts(parts, incoming) == MergeParts(parts, incoming[..n])
    decreases |incoming|
  {
    if n < |incoming| {
      assert incoming[..|incoming| - 1][..n] == incoming[..n];
      PartsStop(parts, incoming[..|incoming| - 1], n);
    } else {
      assert incoming[..n] == incoming;
    }
  }

  lemma {:induction false} ClaimStops(aliases: map<string, EventId>, target: EventId, ids: seq<string>, n: nat)
    requires n <= |ids| && Claim(aliases, target, ids[..n]).Err?
    ensures Claim(aliases, target, ids) == Claim(aliases, target, ids[..n])
    decreases |ids|
  {
    if n < |ids| {
      assert ids[..|ids| - 1][..n] == ids[..n];
      ClaimStops(aliases, target, ids[..|ids| - 1], n);
    } else {
      assert ids[..n] == ids;
    }
  }

  lemma {:induction false} AliasesStop(parts: seq<Part>, events: seq<Event>, n: nat)
    requires n <= |parts| && Aliases(parts[..n], events).Err?
    ensures Aliases(parts, events) == Aliases(parts[..n], events)
    decreases |parts|
  {
    if n < |parts| {
      assert parts[..|parts| - 1][..n] == parts[..n];
      AliasesStop(parts[..|parts| - 1], events, n);
    } else {
      assert parts[..n] == parts;
    }
  }

  lemma {:induction false} GroupsStop(ordered: seq<Event>, aliases: map<string, EventId>, parts: seq<Part>, n: nat)
    requires n <= |ordered| && Groups(ordered[..n], aliases, parts).Err?
    ensures Groups(ordered, aliases, parts) == Groups(ordered[..n], aliases, parts)
    decreases |ordered|
  {
    if n < |ordered| {
      assert ordered[..|ordered| - 1][..n] == ordered[..n];
      GroupsStop(ordered[..|ordered| - 1], aliases, parts, n);
    } else {
      assert ordered[..n] == ordered;
    }
  }

  // ------------------------------------------------------------------ the loops

  method ReadWindow(values: seq<Event>) returns (r: Result<seq<Event>, string>)
    ensures r == Window(values)
    ensures r.Ok? <==> Unique(values) && forall e | e in values :: WellFormed(e)
  {
    WindowIff(values);
    var window: seq<Event> := [];
    for i := 0 to |values|
      invariant Window(values[..i]) == Ok(window)
    {
      var e := values[i];
      assert values[..i + 1][..i] == values[..i];
      if !WellFormed(e) {
        WindowStops(values, i + 1);
        return Err("invalid-native-order");
      }
      if e.nativeId in Ids(window) {
        WindowStops(values, i + 1);
        return Err("duplicate-native-id");
      }
      window := window + [e];
    }
    assert values[..|values|] == values;
    return Ok(window);
  }

  // Two events of one identity must agree; a mapping once known is carried over.
  method MergeLedger(prior: seq<Event>, window: seq<Event>, hasMore: bool) returns (r: Result<seq<Event>, string>)
    ensures r == Merge(prior, window, hasMore)
    ensures Unique(prior) && Unique(window) ==> (r.Ok? <==> Mergeable(prior, window, hasMore))
    ensures Unique(prior) && Unique(window) && r.Ok? ==> IsMerged(prior, window, r.value)
  {
    hide Value, Lower, Lookup, Unseen, Ids, Mergeable, IsMerged, Unique;
    if Unique(prior) && Unique(window) {
      MergeIff(prior, window, hasMore);
    }
    if prior != [] && Ids(prior) !! Ids(window) {
      return Err("native-window-gap");
    }
    if exists e | e in prior :: e.nativeId !in Ids(window) && !(hasMore && Value(e.order) < Lower(window)) {
      return Err("native-history-changed");
    }
    var kept: seq<Event> := [];
    for i := 0 to |prior|
      invariant RefreshAll(prior[..i], window) == Ok(kept)
    {
      var before := prior[i];
      assert prior[..i + 1][..i] == prior[..i];
      match Lookup(window, before.nativeId) {
        case None =>
          kept := kept + [before];
        case Some(now) =>
          if !SamePlace(before, now) {
            RefreshStops(prior, window, i + 1);
            return Err("native-order-changed");
          }
          if Remapped(before, now) {
            RefreshStops(prior, window, i + 1);
            return Err("native-event-remapped");
          }
          kept := kept + [Refreshed(before, window)];
      }
    }
    assert prior[..|prior|] == prior;
    var events := kept + Unseen(window, prior);
    if |events| > LIMIT {
      return Err("native-ledger-bound");
    }
    return Ok(events);
  }

  // Accepted exactly when well formed and in agreement; then nothing known is lost.
  method ReadParts(parts: seq<Part>, incoming: seq<Part>) returns (r: Result<seq<Part>, string>)
    ensures r == MergeParts(parts, incoming)
    ensures OneEntryEach(parts) ==> (r.Ok? <==> Agreeing(parts, incoming))
    ensures OneEntryEach(parts) && r.Ok? ==> Merged(parts, incoming, r.value)
  {
    hide Agreeing, Merged;
    if OneEntryEach(parts) {
      MergePartsIff(parts, incoming);
    }
    var merged := parts;
    for i := 0 to |incoming|
      invariant MergeParts(parts, incoming[..i]) == Ok(merged)
    {
      var p := incoming[i];
      assert incoming[..i + 1][..i] == incoming[..i];
      if !PartShape(p) {
        PartsStop(parts, incoming, i + 1);
        return Err("native-parts-invalid");
      }
      if HasPart(merged, p.target) && AsSet(PartIds(merged, p.target)) != AsSet(p.ids) {
        PartsStop(parts, incoming, i + 1);
        return Err("native-parts-changed");
      }
      merged := PutPart(merged, p);
    }
    assert incoming[..|incoming|] == incoming;
    return Ok(merged);
  }

  method ClaimParts(aliases: map<string, EventId>, target: EventId, ids: seq<string>)
    returns (r: Result<map<string, EventId>, string>)
    ensures r == Claim(aliases, target, ids)
  {
    var claimed := aliases;
    for i := 0 to |ids|
      invariant Claim(aliases, target, ids[..i]) == Ok(claimed)
    {
      assert ids[..i + 1][..i] == ids[..i];
      if ids[i] in claimed {
        ClaimStops(aliases, target, ids, i + 1);
        return Err("native-part-multiple-messages");
      }
      claimed := claimed[ids[i] := target];
    }
    assert ids[..|ids|] == ids;
    return Ok(claimed);
  }

  // Accepted exactly when every native id of the parts is a sent event of the ledger and
  // named once; then the table maps these ids, each to its message.
  method ReadAliases(parts: seq<Part>, events: seq<Event>) returns (r: Result<map<string, EventId>, string>)
    ensures r == Aliases(parts, events)
    ensures r.Ok? <==> AllDelivered(parts, events) && NamedOnce(parts)
    ensures r.Ok? ==> MapsParts(r.value, parts)
  {
    AliasesIff(parts, events);
    hide AllDelivered, NamedOnce, MapsParts;
    var aliases: map<string, EventId> := map[];
    for i := 0 to |parts|
      invariant Aliases(parts[..i], events) == Ok(aliases)
    {
      var p := parts[i];
      assert parts[..i + 1][..i] == parts[..i];
      if exists id | id in p.ids :: !Delivered(events, id) {
        AliasesStop(parts, events, i + 1);
        return Err("native-parts-incomplete");
      }
      var claimed := ClaimParts(aliases, p.target, p.ids);
      if claimed.Err? {
        AliasesStop(parts, events, i + 1);
        return claimed;
      }
      aliases := claimed.value;
    }
    assert parts[..|parts|] == parts;
    return Ok(aliases);
  }

  // Events in order either open a message or extend the one just read.
  method GroupMessages(ordered: seq<Event>, aliases: map<string, EventId>, parts: seq<Part>)
    returns (r: Result<seq<Group>, string>)
    ensures r == Groups(ordered, aliases, parts)
  {
    var groups: seq<Group> := [];
    for i := 0 to |ordered|
      invariant Groups(ordered[..i], aliases, parts) == Ok(groups)
    {
      var e := ordered[i];
      assert ordered[..i + 1][..i] == ordered[..i];
      var target := if e.nativeId in aliases then Some(aliases[e.nativeId]) else e.eventId;
      if target.None? {
        GroupsStop(ordered, aliases, parts, i + 1);
        return Err("native-message-not-mapped");
      }
      if HasGroup(groups, target.value) {
        var last := groups[|groups| - 1];
        if !(last.target == target.value && !e.incoming && e.nativeId in PartIds(parts, target.value)) {
          GroupsStop(ordered, aliases, parts, i + 1);
          return Err("native-message-noncontiguous");
        }
        groups := groups[|groups| - 1 := last.(timestamp := e.timestamp, order := e.order)];
      } else {
        groups := groups + [Group(target.value, e.incoming, e.timestamp, e.order)];
      }
    }
    assert ordered[..|ordered|] == ordered;
    return Ok(groups);
  }

  // The messages but for the boundary, each with what answers it.
  method PairShown(groups: seq<Group>, boundary: Option<EventId>) returns (messages: seq<Message>)
    ensures messages == Messages(Shown(groups, boundary))
  {
    var shown: seq<Group> := [];
    for i := 0 to |groups|
      invariant shown == Shown(groups[..i], boundary)
    {
      assert groups[..i + 1][..i] == groups[..i];
      if Some(groups[i].target) != boundary {
        shown := shown + [groups[i]];
      }
    }
    assert groups[..|groups|] == groups;
    var items := Items(shown);
    var answered := PairMessages(items);
    messages := [];
    for i := 0 to |shown|
      invariant messages == Messages(shown)[..i]
    {
      var answer := None;
      if i in answered {
        AnswerOfIs(items, i, answered[i]);
        answer := Some(items[answered[i]].id);
      }
      messages := messages + [Message(shown[i].target, shown[i].incoming, shown[i].timestamp, shown[i].order, answer)];
    }
  }

  method ProjectConversation(previous: Option<Projection>, snapshot: Snapshot)
    returns (r: Result<Projection, string>)
    ensures r == Project(previous, snapshot)
    ensures Unique(KnownEvents(previous)) && OneEntryEach(KnownParts(previous)) ==>
              (r.Ok? <==> Usable(previous, snapshot)
                          && WindowFits(KnownEvents(previous), KnownParts(previous), snapshot)
                          && Readable(previous, snapshot))
  {
    if Unique(KnownEvents(previous)) && OneEntryEach(KnownParts(previous)) {
      ProjectIff(previous, snapshot);
    }
    hide Unique, OneEntryEach, Usable, WindowFits, Readable;
    if !snapshot.usable {
      return Err("native-window-incomplete");
    }
    if previous.Some? && previous.value.kind != snapshot.kind {
      return Err("evidence-kind-changed");
    }
    if |snapshot.events| > LIMIT {
      return Err("native-window-invalid");
    }
    var window :- ReadWindow(snapshot.events);
    var events :- MergeLedger(if previous.Some? then previous.value.events else [], window, snapshot.hasMore);
    var parts :- ReadParts(if previous.Some? then previous.value.parts else [], snapshot.parts);
    var aliases :- ReadAliases(parts, events);
    var ordered := SortByOrder(events);
    if !OrdersDiffer(ordered) {
      return Err("native-order-tie");
    }
    if !TimesRise(ordered) {
      return Err("native-time-order-inversion");
    }
    var groups :- GroupMessages(ordered, aliases, parts);
    var boundary := if previous.Some? then previous.value.boundary else None;
    if previous.None? && snapshot.hasMore && groups != [] {
      boundary := Some(groups[0].target);
    }
    if !snapshot.hasMore {
      boundary := None;
    }
    var messages := PairShown(groups, boundary);
    var complete := snapshot.kind.NativeComplete?
                    && (!snapshot.hasMore || (previous.Some? && previous.value.complete));
    return Ok(Projection(snapshot.kind, events, parts, boundary, complete, messages));
  }

  // ------------------------------------------------------------------ what a state event keeps

  const RECENT := 100

  // Answers are later messages, and ids are not shared.
  ghost predicate LinksForward(messages: seq<Message>) {
    && (forall i, j | 0 <= i < j < |messages| :: messages[i].eventId != messages[j].eventId)
    && (forall i | 0 <= i < |messages| && messages[i].answeredBy.Some? ::
          exists j | i < j < |messages| :: messages[j].eventId == messages[i].answeredBy.value)
  }

  lemma MessagesLinkForward(groups: seq<Group>)
    requires UniqueTargets(groups)
    ensures LinksForward(Messages(groups))
  {
    var s, messages := Items(groups), Messages(groups);
    forall i | 0 <= i < |messages| && messages[i].answeredBy.Some?
      ensures exists j | i < j < |messages| :: messages[j].eventId == messages[i].answeredBy.value
    {
      var j: nat :| Answers(s, i, j) && messages[i].answeredBy == Some(s[j].id);
      assert messages[j].eventId == s[j].id;
    }
  }

  // The newest messages and every unanswered one.
  ghost predicate Seed(messages: seq<Message>, m: Message) {
    m in messages && (m.answeredBy.None? || exists k | 0 <= k < |messages| && |messages| - 100 <= k :: messages[k] == m)
  }

  // A set of ids is closed when the answer of every message in it is in it too.
  ghost predicate Closed(messages: seq<Message>, keep: set<EventId>) {
    forall m | m in messages && m.eventId in keep && m.answeredBy.Some? :: m.answeredBy.value in keep
  }

  ghost predicate HoldsSeeds(messages: seq<Message>, keep: set<EventId>) {
    forall m | Seed(messages, m) :: m.eventId in keep
  }

  ghost predicate Least(messages: seq<Message>, keep: set<EventId>) {
    forall other: set<EventId> | HoldsSeeds(messages, other) && Closed(messages, other) :: keep <= other
  }

  function Seeds(messages: seq<Message>): set<EventId> {
    var recent := if |messages| > RECENT then messages[|messages| - RECENT..] else messages;
    (set m | m in recent :: m.eventId) + (set m | m in messages && m.answeredBy.None? :: m.eventId)
  }

  lemma SeedsAreSeeds(messages: seq<Message>)
    ensures HoldsSeeds(messages, Seeds(messages)) && Least(messages, Seeds(messages))
  {
    var first := if |messages| > RECENT then |messages| - RECENT else 0;
    var recent := messages[first..];
    forall m | Seed(messages, m) ensures m.eventId in Seeds(messages) {
      if m.answeredBy.Some? {
        var k :| 0 <= k < |messages| && |messages| - RECENT <= k && messages[k] == m;
        assert recent[k - first] == m;
      }
    }
    forall other: set<EventId>, id | HoldsSeeds(messages, other) && id in Seeds(messages) ensures id in other {
      if m :| m in recent && m.eventId == id {
        var k :| 0 <= k < |recent| && recent[k] == m;
        assert messages[first + k] == m && Seed(messages, m);
      } else {
        var m :| m in messages && m.answeredBy.None? && m.eventId == id;
        assert Seed(messages, m);
      }
    }
  }

  ghost predicate ClosedUpTo(messages: seq<Message>, keep: set<EventId>, n: nat) {
    forall k | 0 <= k < n && k < |messages| && messages[k].eventId in keep && messages[k].answeredBy.Some? ::
      messages[k].answeredBy.value in keep
  }

  // Taking a kept message's answer along opens nothing behind it.
  lemma KeepStep(messages: seq<Message>, keep: set<EventId>, i: nat)
    requires LinksForward(messages) && i < |messages| && ClosedUpTo(messages, keep, i)
    ensures var m := messages[i];
      var next := if m.eventId in keep && m.answeredBy.Some? then keep + {m.answeredBy.value} else keep;
      ClosedUpTo(messages, next, i + 1) && (Least(messages, keep) ==> Least(messages, next))
  {
    var m := messages[i];
    if m.eventId in keep && m.answeredBy.Some? {
      var j :| i < j < |messages| && messages[j].eventId == m.answeredBy.value;
    }
  }

  // One forward pass is enough, because answers come later: the set is closed, and every
  // closed set that holds the seeds holds all of it.
  method KeepSet(messages: seq<Message>) returns (keep: set<EventId>)
    requires LinksForward(messages)
    ensures HoldsSeeds(messages, keep) && Closed(messages, keep) && Least(messages, keep)
  {
    keep := Seeds(messages);
    SeedsAreSeeds(messages);
    for i := 0 to |messages|
      invariant HoldsSeeds(messages, keep) && Least(messages, keep) && ClosedUpTo(messages, keep, i)
    {
      KeepStep(messages, keep, i);
      var m := messages[i];
      if m.eventId in keep && m.answeredBy.Some? {
        keep := keep + {m.answeredBy.value};
      }
    }
  }
}

/**
 Messages that were delivered as several native ones: which parts a ledger accepts, and
 which message it then takes a native id to belong to.
 */
module ConversationParts {
  import opened Wrappers
  import opened ReplyPairing
  import opened ConversationTracking

  // ------------------------------------------------------------------ parts of a ledger

  // One entry for a message, as in a table.
  predicate OneEntryEach(parts: seq<Part>) {
    forall i, j | 0 <= i < j < |parts| :: parts[i].target != parts[j].target
  }

  lemma {:induction false} PartIdsOf(parts: seq<Part>, p: Part)
    requires OneEntryEach(parts) && p in parts
    ensures PartIds(parts, p.target) == p.ids
  {
    var front := parts[..|parts| - 1];
    if parts[|parts| - 1] != p {
      assert p in front;
      PartIdsOf(front, p);
    }
  }

  lemma {:induction false} NoPartIds(parts: seq<Part>, target: EventId)
    requires !HasPart(parts, target)
    ensures PartIds(parts, target) == []
  {
    if parts != [] {
      assert parts[|parts| - 1] in parts;
      NoPartIds(parts[..|parts| - 1], target);
    }
  }

  lemma {:induction false} PutPartIs(parts: seq<Part>, p: Part)
    requires OneEntryEach(parts)
    ensures OneEntryEach(PutPart(parts, p))
    ensures forall x :: x in PutPart(parts, p) <==> x == p || (x in parts && x.target != p.target)
  {
    if parts != [] {
      var rest := parts[1..];
      assert parts == [parts[0]] + rest;
      if parts[0].target == p.target {
        assert forall x | x in rest :: x.target != p.target;
      } else {
        PutPartIs(rest, p);
        var r := PutPart(rest, p);
        assert forall x | x in r :: x.target != parts[0].target;
        assert PutPart(parts, p) == [parts[0]] + r;
      }
    }
  }

  predicate SameIds(p: Part, q: Part) {
    AsSet(p.ids) == AsSet(q.ids)
  }

  // Entries for one message name the same native ids.
  ghost predicate Agreeing(parts: seq<Part>, incoming: seq<Part>) {
    && (forall p | p in incoming :: PartShape(p))
    && (forall p, q | p in parts && q in incoming && p.target == q.target :: SameIds(p, q))
    && (forall p, q | p in incoming && q in incoming && p.target == q.target :: SameIds(p, q))
  }

  // Merged: one entry for each message of either, none but theirs, no native id lost or won.
  ghost predicate Merged(parts: seq<Part>, incoming: seq<Part>, r: seq<Part>) {
    && OneEntryEach(r)
    && (forall x | x in r :: x in parts || x in incoming)
    && (forall p | p in parts || p in incoming :: HasPart(r, p.target))
    && (forall p, x | (p in parts || p in incoming) && x in r && p.target == x.target :: SameIds(p, x))
  }

  lemma PutKeepsMerged(parts: seq<Part>, incoming: seq<Part>, r: seq<Part>, p: Part)
    requires Merged(parts, incoming, r)
    requires HasPart(r, p.target) ==> AsSet(PartIds(r, p.target)) == AsSet(p.ids)
    ensures Merged(parts, incoming + [p], PutPart(r, p))
  {
    PutPartIs(r, p);
    var next := PutPart(r, p);
    assert p in next;
    forall x | x in r && x.target == p.target ensures SameIds(x, p) {
      PartIdsOf(r, x);
    }
    forall q | q in parts || q in incoming + [p] ensures HasPart(next, q.target) {
      if q.target != p.target {
        var x :| x in r && x.target == q.target;
        assert x in next;
      }
    }
    forall q, x | (q in parts || q in incoming + [p]) && x in next && q.target == x.target ensures SameIds(q, x) {
      if x == p && q != p {
        assert HasPart(r, q.target);
        var y :| y in r && y.target == q.target;
        assert SameIds(q, y) && SameIds(y, p);
      }
    }
  }

  // A window's parts are merged if and only if they are well formed and agree with what is
  // known, and among themselves.
  lemma {:induction false} MergePartsIff(parts: seq<Part>, incoming: seq<Part>)
    requires OneEntryEach(parts)
    ensures MergeParts(parts, incoming).Ok? <==> Agreeing(parts, incoming)
    ensures MergeParts(parts, incoming).Ok? ==> Merged(parts, incoming, MergeParts(parts, incoming).value)
  {
    if incoming != [] {
      var front, p := incoming[..|incoming| - 1], incoming[|incoming| - 1];
      assert incoming == front + [p];
      MergePartsIff(parts, front);
      hide PartShape, AsSet;
      if MergeParts(parts, front).Ok? {
        var r := MergeParts(parts, front).value;
        var fits := HasPart(r, p.target) ==> AsSet(PartIds(r, p.target)) == AsSet(p.ids);
        FitsIff(parts, front, r, p);
        if fits {
          PutKeepsMerged(parts, front, r, p);
        }
        AgreeingOneMore(parts, front, p);
      } else {
        AgreeingFewer(parts, front, p);
      }
    }
  }

  ghost predicate Fits(parts: seq<Part>, incoming: seq<Part>, p: Part) {
    forall q | (q in parts || q in incoming) && q.target == p.target :: SameIds(q, p)
  }

  lemma FitsIff(parts: seq<Part>, incoming: seq<Part>, r: seq<Part>, p: Part)
    requires Merged(parts, incoming, r)
    ensures (HasPart(r, p.target) ==> AsSet(PartIds(r, p.target)) == AsSet(p.ids)) <==> Fits(parts, incoming, p)
  {
    hide AsSet;
    if HasPart(r, p.target) {
      var x :| x in r && x.target == p.target;
      PartIdsOf(r, x);
      assert x in parts || x in incoming;
      assert SameIds(x, p) <==> AsSet(PartIds(r, p.target)) == AsSet(p.ids);
      forall q | (q in parts || q in incoming) && q.target == p.target ensures SameIds(q, x) {}
    }
  }

  lemma AgreeingOneMore(parts: seq<Part>, incoming: seq<Part>, p: Part)
    requires Agreeing(parts, incoming)
    ensures Agreeing(parts, incoming + [p]) <==> PartShape(p) && Fits(parts, incoming, p)
  {
    var all := incoming + [p];
    assert p in all && forall q | q in incoming :: q in all;
    if PartShape(p) && Fits(parts, incoming, p) {
      forall q, x | q in all && x in all && q.target == x.target ensures SameIds(q, x) {}
    }
  }

  lemma AgreeingFewer(parts: seq<Part>, incoming: seq<Part>, p: Part)
    requires !Agreeing(parts, incoming)
    ensures !Agreeing(parts, incoming + [p])
  {
    var all := incoming + [p];
    assert forall q | q in incoming :: q in all;
  }

  // ------------------------------------------------------------------ whose part a native id is

  // The ids have been added, each for the message.
  ghost predicate Claimed(before: map<string, EventId>, target: EventId, ids: seq<string>, after: map<string, EventId>) {
    && (forall x :: x in after <==> x in before || x in ids)
    && (forall x | x in before && x !in ids :: after[x] == before[x])
    && (forall x | x in ids :: after[x] == target)
  }

  lemma {:induction false} ClaimIff(aliases: map<string, EventId>, target: EventId, ids: seq<string>)
    ensures Claim(aliases, target, ids).Ok? <==> DistinctIds(ids) && forall id | id in ids :: id !in aliases
    ensures Claim(aliases, target, ids).Ok? ==> Claimed(aliases, target, ids, Claim(aliases, target, ids).value)
  {
    if ids != [] {
      var front, id := ids[..|ids| - 1], ids[|ids| - 1];
      assert ids == front + [id];
      ClaimIff(aliases, target, front);
      DistinctOneMore(front, id);
      hide DistinctIds;
      assert forall x :: x in ids <==> x in front || x == id;
    }
  }

  lemma DistinctOneMore(front: seq<string>, id: string)
    ensures DistinctIds(front + [id]) <==> DistinctIds(front) && id !in front
  {
    var all := front + [id];
    if id in front {
      var i :| 0 <= i < |front| && front[i] == id;
      assert all[i] == all[|front|];
    }
    assert forall i | 0 <= i < |front| :: all[i] == front[i];
  }

  // Every native id of the parts is that of a sent event in the ledger.
  predicate AllDelivered(parts: seq<Part>, events: seq<Event>) {
    forall p, id | p in parts && id in p.ids :: Delivered(events, id)
  }

  // No native id is named twice.
  predicate NamedOnce(parts: seq<Part>) {
    && (forall p | p in parts :: DistinctIds(p.ids))
    && (forall i, j | 0 <= i < j < |parts| :: AsSet(parts[i].ids) !! AsSet(parts[j].ids))
  }

  // The table maps the native ids of the parts, each to its part's message, and no others.
  ghost predicate MapsParts(aliases: map<string, EventId>, parts: seq<Part>) {
    && (forall p, id | p in parts && id in p.ids :: id in aliases && aliases[id] == p.target)
    && (forall id | id in aliases :: exists p | p in parts :: id in p.ids)
  }

  // The table is made if and only if each native event of the parts is one message's only,
  // and a sent one of the ledger.
  lemma {:induction false} AliasesIff(parts: seq<Part>, events: seq<Event>)
    ensures Aliases(parts, events).Ok? <==> AllDelivered(parts, events) && NamedOnce(parts)
    ensures Aliases(parts, events).Ok? ==> MapsParts(Aliases(parts, events).value, parts)
  {
    if parts != [] {
      var front, p := parts[..|parts| - 1], parts[|parts| - 1];
      assert parts == front + [p];
      AliasesIff(front, events);
      hide Delivered, DistinctIds, Claimed, MapsParts, AllDelivered, NamedOnce;
      DeliveredOneMore(front, p, events);
      if Aliases(front, events).Ok? {
        var before := Aliases(front, events).value;
        ClaimIff(before, p.target, p.ids);
        NamedOneMore(front, p, before);
        if Claim(before, p.target, p.ids).Ok? {
          MapsOneMore(front, p, before, Claim(before, p.target, p.ids).value);
        }
      } else if !NamedOnce(front) {
        NamedFewer(front, p);
      }
    }
  }

  lemma DeliveredOneMore(front: seq<Part>, p: Part, events: seq<Event>)
    ensures AllDelivered(front + [p], events)
            <==> AllDelivered(front, events) && forall id | id in p.ids :: Delivered(events, id)
  {
    hide Delivered;
    var all := front + [p];
    assert p in all && forall q | q in front :: q in all;
  }

  lemma NamedFewer(front: seq<Part>, p: Part)
    requires !NamedOnce(front)
    ensures !NamedOnce(front + [p])
  {
    hide DistinctIds, AsSet;
    var all := front + [p];
    assert forall q | q in front :: q in all;
    assert forall i | 0 <= i < |front| :: all[i] == front[i];
  }

  lemma NamedOneMore(front: seq<Part>, p: Part, aliases: map<string, EventId>)
    requires NamedOnce(front) && MapsParts(aliases, front)
    ensures NamedOnce(front + [p]) <==> DistinctIds(p.ids) && forall id | id in p.ids :: id !in aliases
  {
    hide DistinctIds;
    var all := front + [p];
    assert p in all;
    if id :| id in p.ids && id in aliases {
      var q :| q in front && id in q.ids;
      var i :| 0 <= i < |front| && front[i] == q;
      assert id in AsSet(all[i].ids) && id in AsSet(all[|front|].ids);
    } else {
      forall i | 0 <= i < |front| ensures AsSet(all[i].ids) !! AsSet(p.ids) {
        assert front[i] in front;
      }
    }
  }

  lemma MapsOneMore(front: seq<Part>, p: Part, aliases: map<string, EventId>, next: map<string, EventId>)
    requires MapsParts(aliases, front) && forall id | id in p.ids :: id !in aliases
    requires Claimed(aliases, p.target, p.ids, next)
    ensures MapsParts(next, front + [p])
  {
    var all := front + [p];
    assert p in all && forall q | q in front :: q in all;
    forall q, id | q in all && id in q.ids ensures id in next && next[id] == q.target {
      if q != p {
        assert q in front;
      }
    }
    forall id | id in next ensures exists q | q in all :: id in q.ids {
      if id in aliases {
        var q :| q in front && id in q.ids;
        assert q in all;
      }
    }
  }
}

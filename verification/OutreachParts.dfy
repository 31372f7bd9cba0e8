/**
 From a ledger and the table of native parts to the answers of all outreaches: reading the
 parts, the checks of order, and the scan, in the order in which they are made.
 */
module OutreachParts {
  import opened Wrappers
  import opened ReplyPairing
  import opened OutreachPairing

  const MAX_PARTS := 100

  type Parts = map<EventId, seq<string>>

  // The outreaches, and the native ids that are parts of one.
  datatype Read = Read(outgoing: seq<Outreach>, claimed: set<string>)

  // ------------------------------------------------------------------ a group of parts

  ghost predicate NativesDiffer(ledger: seq<Event>) {
    forall i, j | 0 <= i < j < |ledger| :: ledger[i].nativeId != ledger[j].nativeId
  }

  function Find(ledger: seq<Event>, id: string): (r: Option<Event>)
    ensures r.Some? ==> r.value in ledger && r.value.nativeId == id
    ensures r.None? ==> forall e | e in ledger :: e.nativeId != id
  {
    if ledger == [] then None
    else if ledger[|ledger| - 1].nativeId == id then Some(ledger[|ledger| - 1])
    else Find(ledger[..|ledger| - 1], id)
  }

  predicate IdsFit(ledger: seq<Event>, ids: seq<string>) {
    && 0 < |ids| <= MAX_PARTS
    && (forall i, j | 0 <= i < j < |ids| :: ids[i] != ids[j])
    && (forall id | id in ids :: Find(ledger, id).Some?)
  }

  function GroupOf(ledger: seq<Event>, ids: seq<string>): (group: seq<Event>)
    requires IdsFit(ledger, ids)
    ensures |group| == |ids|
    ensures forall i | 0 <= i < |ids| :: group[i] in ledger && group[i].nativeId == ids[i]
  {
    seq(|ids|, i requires 0 <= i < |ids| => assert ids[i] in ids; Find(ledger, ids[i]).value)
  }

  function Start(group: seq<Event>): (r: int)
    requires group != []
    ensures (forall e | e in group :: r <= e.order) && exists e | e in group :: e.order == r
  {
    var n := |group| - 1;
    assert group == group[..n] + [group[n]];
    if n == 0 || group[n].order <= Start(group[..n]) then group[n].order else Start(group[..n])
  }

  function End(group: seq<Event>): (r: int)
    requires group != []
    ensures (forall e | e in group :: e.order <= r) && exists e | e in group :: e.order == r
  {
    var n := |group| - 1;
    assert group == group[..n] + [group[n]];
    if n == 0 || group[n].order >= End(group[..n]) then group[n].order else End(group[..n])
  }

  function LastTime(group: seq<Event>): (r: int)
    requires group != []
    ensures (forall e | e in group :: e.timestamp <= r) && exists e | e in group :: e.timestamp == r
  {
    var n := |group| - 1;
    assert group == group[..n] + [group[n]];
    if n == 0 || group[n].timestamp >= LastTime(group[..n]) then group[n].timestamp else LastTime(group[..n])
  }

  function OutreachOf(target: EventId, group: seq<Event>): Outreach
    requires group != []
  {
    Outreach(target, Start(group), End(group), LastTime(group))
  }

  // ------------------------------------------------------------------ reading the parts

  // What the table says of one target: parts that are there, all sent; and, where the window
  // is all there is to go by, none at its edge.
  predicate TargetFits(ledger: seq<Event>, parts: Parts, edge: Option<int>, target: EventId) {
    && target in parts && IdsFit(ledger, parts[target])
    && (forall e | e in GroupOf(ledger, parts[target]) :: !e.incoming)
    && (edge.Some? ==> edge.value < Start(GroupOf(ledger, parts[target])))
  }

  function IdSet(parts: Parts, target: EventId): set<string> {
    if target in parts then set id | id in parts[target] else {}
  }

  // Every target fits, and no native event is a part of two.
  ghost predicate AllFit(ledger: seq<Event>, targets: seq<EventId>, parts: Parts, edge: Option<int>) {
    && (forall i | 0 <= i < |targets| :: TargetFits(ledger, parts, edge, targets[i]))
    && (forall i, j | 0 <= i < j < |targets| :: IdSet(parts, targets[i]) !! IdSet(parts, targets[j]))
  }

  ghost predicate IsRead(ledger: seq<Event>, targets: seq<EventId>, parts: Parts, read: Read) {
    && |read.outgoing| == |targets|
    && (forall i | 0 <= i < |targets| :: targets[i] in parts && IdsFit(ledger, parts[targets[i]])
          && read.outgoing[i] == OutreachOf(targets[i], GroupOf(ledger, parts[targets[i]])))
    && (forall id :: id in read.claimed <==> exists i | 0 <= i < |targets| :: id in IdSet(parts, targets[i]))
  }

  lemma FitsOneMore(ledger: seq<Event>, targets: seq<EventId>, parts: Parts, edge: Option<int>, read: Read, t: EventId)
    requires AllFit(ledger, targets, parts, edge) && IsRead(ledger, targets, parts, read)
    ensures AllFit(ledger, targets + [t], parts, edge)
            <==> TargetFits(ledger, parts, edge, t) && read.claimed !! IdSet(parts, t)
    ensures TargetFits(ledger, parts, edge, t) ==>
              IsRead(ledger, targets + [t], parts,
                     Read(read.outgoing + [OutreachOf(t, GroupOf(ledger, parts[t]))], read.claimed + IdSet(parts, t)))
  {
    hide TargetFits, IdSet, GroupOf, OutreachOf;
    var all, n := targets + [t], |targets|;
    assert all[n] == t && forall i | 0 <= i < n :: all[i] == targets[i];
    if AllFit(ledger, all, parts, edge) {
      forall id | id in read.claimed ensures id !in IdSet(parts, t) {
        var i :| 0 <= i < n && id in IdSet(parts, targets[i]);
        assert IdSet(parts, all[i]) !! IdSet(parts, all[n]);
      }
    }
    TargetShape(ledger, parts, edge, t);
    forall id ensures (exists i | 0 <= i < |all| :: id in IdSet(parts, all[i]))
                      <==> (exists i | 0 <= i < n :: id in IdSet(parts, targets[i])) || id in IdSet(parts, t)
    {
      if i :| 0 <= i < |all| && id in IdSet(parts, all[i]) {
        assert i < n ==> id in IdSet(parts, targets[i]);
      }
      if i :| 0 <= i < n && id in IdSet(parts, targets[i]) {
        assert id in IdSet(parts, all[i]);
      }
      assert id in IdSet(parts, t) ==> id in IdSet(parts, all[n]);
    }
  }

  lemma TargetShape(ledger: seq<Event>, parts: Parts, edge: Option<int>, t: EventId)
    ensures TargetFits(ledger, parts, edge, t) ==> t in parts && IdsFit(ledger, parts[t])
  {}

  // A target fits if its parts are one to a hundred different events of the ledger, all sent,
  // and behind the window's edge where that matters.
  lemma TargetFitsIff(ledger: seq<Event>, parts: Parts, edge: Option<int>, t: EventId)
    requires NativesDiffer(ledger)
    ensures TargetFits(ledger, parts, edge, t) <==>
              && t in parts && 1 <= |parts[t]| <= 100
              && (forall i, j | 0 <= i < j < |parts[t]| :: parts[t][i] != parts[t][j])
              && forall id | id in parts[t] :: exists e | e in ledger ::
                   e.nativeId == id && !e.incoming && (edge.Some? ==> edge.value < e.order)
  {
    if t in parts && IdsFit(ledger, parts[t]) {
      var ids := parts[t];
      var group := GroupOf(ledger, ids);
      forall e | e in ledger && e.nativeId in ids ensures e in group {
        PartFound(ledger, ids, e);
      }
      forall id | id in ids ensures exists e | e in group :: e.nativeId == id {
        var k :| 0 <= k < |ids| && ids[k] == id;
        assert group[k] in group;
      }
      forall e | e in group ensures e in ledger && e.nativeId in ids {
        var k :| 0 <= k < |group| && group[k] == e;
      }
      hide IdsFit, GroupOf, NativesDiffer;
    } else if t in parts && forall id | id in parts[t] :: exists e | e in ledger :: e.nativeId == id {
      forall id | id in parts[t] ensures Find(ledger, id).Some? {}
    }
  }

  lemma Misfit(ledger: seq<Event>, targets: seq<EventId>, parts: Parts, edge: Option<int>, n: nat)
    requires n <= |targets| && !AllFit(ledger, targets[..n], parts, edge)
    ensures !AllFit(ledger, targets, parts, edge)
  {
    hide TargetFits, IdSet;
    assert forall i | 0 <= i < n :: targets[..n][i] == targets[i];
  }

  // `claimed` grows with every outreach; what it holds already is no one else's part.
  method ReadOutreaches(ledger: seq<Event>, targets: seq<EventId>, parts: Parts, edge: Option<int>)
    returns (r: Result<Read, string>)
    ensures r.Ok? <==> AllFit(ledger, targets, parts, edge)
    ensures r.Ok? ==> IsRead(ledger, targets, parts, r.value)
  {
    hide AllFit, IsRead, GroupOf, Find, OutreachOf, IdsFit;
    var read := Read([], {});
    NothingRead(ledger, parts, edge);
    for i := 0 to |targets|
      invariant AllFit(ledger, targets[..i], parts, edge) && IsRead(ledger, targets[..i], parts, read)
    {
      var t := targets[i];
      assert targets[..i + 1] == targets[..i] + [t];
      FitsOneMore(ledger, targets[..i], parts, edge, read, t);
      if !(t in parts && IdsFit(ledger, parts[t])) {
        Misfit(ledger, targets, parts, edge, i + 1);
        return Err("native-outgoing-parts-missing");
      }
      if !(read.claimed !! IdSet(parts, t)) {
        Misfit(ledger, targets, parts, edge, i + 1);
        return Err("native-part-multiple-outreach");
      }
      var group := GroupOf(ledger, parts[t]);
      if exists e | e in group :: e.incoming {
        Misfit(ledger, targets, parts, edge, i + 1);
        return Err("native-outgoing-direction");
      }
      GroupSome(ledger, parts[t]);
      if edge.Some? && edge.value >= Start(group) {
        Misfit(ledger, targets, parts, edge, i + 1);
        return Err("native-baseline-incomplete");
      }
      assert TargetFits(ledger, parts, edge, t);
      read := Read(read.outgoing + [OutreachOf(t, group)], read.claimed + IdSet(parts, t));
    }
    assert targets[..|targets|] == targets;
    return Ok(read);
  }

  lemma NothingRead(ledger: seq<Event>, parts: Parts, edge: Option<int>)
    ensures AllFit(ledger, [], parts, edge) && IsRead(ledger, [], parts, Read([], {}))
  {}

  lemma GroupSome(ledger: seq<Event>, ids: seq<string>)
    requires IdsFit(ledger, ids)
    ensures GroupOf(ledger, ids) != []
  {}

  // ------------------------------------------------------------------ the events in order

  function FirstStart(outgoing: seq<Outreach>): (r: int)
    requires outgoing != []
    ensures (forall o | o in outgoing :: r <= o.start) && exists o | o in outgoing :: o.start == r
  {
    var n := |outgoing| - 1;
    assert outgoing == outgoing[..n] + [outgoing[n]];
    if n == 0 || outgoing[n].start <= FirstStart(outgoing[..n]) then outgoing[n].start else FirstStart(outgoing[..n])
  }

  function InsertByOrder(events: seq<Event>, e: Event): seq<Event> {
    if events == [] || events[|events| - 1].order <= e.order then events + [e]
    else InsertByOrder(events[..|events| - 1], e) + [events[|events| - 1]]
  }

  // The events from a place on, sorted stably.
  function OrderedFrom(ledger: seq<Event>, first: int): seq<Event> {
    if ledger == [] then []
    else
      var n := |ledger| - 1;
      var front := OrderedFrom(ledger[..n], first);
      if ledger[n].order >= first then InsertByOrder(front, ledger[n]) else front
  }

  lemma {:induction false} InsertSorts(events: seq<Event>, e: Event)
    requires Sorted(events)
    ensures Sorted(InsertByOrder(events, e))
    ensures forall x :: x in InsertByOrder(events, e) <==> x in events || x == e
  {
    if !(events == [] || events[|events| - 1].order <= e.order) {
      var n := |events| - 1;
      assert events == events[..n] + [events[n]];
      InsertSorts(events[..n], e);
      var r := InsertByOrder(events[..n], e);
      assert forall i | 0 <= i < |r| :: r[i] in r;
      assert forall x | x in events[..n] :: x.order <= events[n].order;
    }
  }

  lemma {:induction false} OrderedFromIs(ledger: seq<Event>, first: int)
    ensures Sorted(OrderedFrom(ledger, first))
    ensures forall x :: x in OrderedFrom(ledger, first) <==> x in ledger && x.order >= first
  {
    if ledger != [] {
      var n := |ledger| - 1;
      assert ledger == ledger[..n] + [ledger[n]];
      OrderedFromIs(ledger[..n], first);
      InsertSorts(OrderedFrom(ledger[..n], first), ledger[n]);
    }
  }

  lemma {:induction false} InsertCounts(events: seq<Event>, e: Event)
    ensures multiset(InsertByOrder(events, e)) == multiset(events) + multiset{e}
  {
    if !(events == [] || events[|events| - 1].order <= e.order) {
      var n := |events| - 1;
      assert events == events[..n] + [events[n]];
      InsertCounts(events[..n], e);
    }
  }

  // No event is in the order more often than in the ledger.
  lemma {:induction false} OrderedFromCounts(ledger: seq<Event>, first: int)
    ensures multiset(OrderedFrom(ledger, first)) <= multiset(ledger)
  {
    if ledger != [] {
      var n := |ledger| - 1;
      assert ledger == ledger[..n] + [ledger[n]];
      OrderedFromCounts(ledger[..n], first);
      InsertCounts(OrderedFrom(ledger[..n], first), ledger[n]);
    }
  }

  // ------------------------------------------------------------------ what has been read is sound

  predicate EndsDiffer(outgoing: seq<Outreach>) {
    forall i, j | 0 <= i < j < |outgoing| :: outgoing[i].end != outgoing[j].end
  }

  lemma GroupSpans(ledger: seq<Event>, parts: Parts, edge: Option<int>, target: EventId)
    requires TargetFits(ledger, parts, edge, target)
    ensures GroupOf(ledger, parts[target]) != []
    ensures Spans(OutreachOf(target, GroupOf(ledger, parts[target])), GroupOf(ledger, parts[target]))
  {}

  lemma TargetsDiffer(ledger: seq<Event>, targets: seq<EventId>, parts: Parts, edge: Option<int>, i: nat, j: nat)
    requires AllFit(ledger, targets, parts, edge) && i < j < |targets|
    ensures targets[i] != targets[j]
  {
    assert TargetFits(ledger, parts, edge, targets[i]);
    assert parts[targets[i]][0] in IdSet(parts, targets[i]);
  }

  lemma SameEvent(ledger: seq<Event>, e: Event, x: Event)
    requires NativesDiffer(ledger) && e in ledger && x in ledger && e.nativeId == x.nativeId
    ensures e == x
  {
    var a, b :| 0 <= a < |ledger| && 0 <= b < |ledger| && ledger[a] == e && ledger[b] == x;
  }

  lemma PartFound(ledger: seq<Event>, ids: seq<string>, e: Event)
    requires NativesDiffer(ledger) && IdsFit(ledger, ids) && e in ledger && e.nativeId in ids
    ensures e in GroupOf(ledger, ids)
  {
    hide NativesDiffer, IdsFit, GroupOf;
    var k :| 0 <= k < |ids| && ids[k] == e.nativeId;
    var x := GroupOf(ledger, ids)[k];
    SameEvent(ledger, e, x);
    assert x in GroupOf(ledger, ids);
  }

  // A part that is claimed is a part of some outreach, and so a sent event.
  lemma ClaimedIsSent(ledger: seq<Event>, targets: seq<EventId>, parts: Parts, edge: Option<int>, read: Read, e: Event)
    requires NativesDiffer(ledger) && AllFit(ledger, targets, parts, edge) && IsRead(ledger, targets, parts, read)
    requires e in ledger && e.nativeId in read.claimed
    ensures !e.incoming
  {
    hide NativesDiffer, IdsFit, GroupOf;
    var i :| 0 <= i < |targets| && e.nativeId in IdSet(parts, targets[i]);
    assert TargetFits(ledger, parts, edge, targets[i]);
    hide IsRead, AllFit;
    PartFound(ledger, parts[targets[i]], e);
  }

  lemma OutreachHasParts(ledger: seq<Event>, targets: seq<EventId>, parts: Parts, edge: Option<int>, read: Read, i: nat,
                         ordered: seq<Event>)
    requires AllFit(ledger, targets, parts, edge) && IsRead(ledger, targets, parts, read) && i < |targets|
    requires forall x | x in ledger && x.order >= read.outgoing[i].start :: x in ordered
    ensures exists group :: PartsOf(ordered, read.outgoing[i], group, read.claimed)
  {
    hide GroupOf, IdsFit, TargetFits, Spans;
    var t := targets[i];
    assert TargetFits(ledger, parts, edge, t);
    GroupSpans(ledger, parts, edge, t);
    ClaimedParts(targets, parts, ledger, read, i);
    hide AllFit, IsRead;
    GroupInOrder(ledger, parts[t], read, ordered, read.outgoing[i]);
    assert PartsOf(ordered, read.outgoing[i], GroupOf(ledger, parts[t]), read.claimed);
  }

  lemma ClaimedParts(targets: seq<EventId>, parts: Parts, ledger: seq<Event>, read: Read, i: nat)
    requires IsRead(ledger, targets, parts, read) && i < |targets|
    ensures forall id | id in parts[targets[i]] :: id in read.claimed
  {
    hide IdsFit, GroupOf, OutreachOf;
    forall id | id in parts[targets[i]] ensures id in read.claimed {
      assert id in IdSet(parts, targets[i]);
    }
  }

  lemma GroupInOrder(ledger: seq<Event>, ids: seq<string>, read: Read, ordered: seq<Event>, o: Outreach)
    requires IdsFit(ledger, ids) && Spans(o, GroupOf(ledger, ids))
    requires forall x | x in ledger && x.order >= o.start :: x in ordered
    requires forall id | id in ids :: id in read.claimed
    ensures forall e | e in GroupOf(ledger, ids) :: e in ordered && e.nativeId in read.claimed
  {
    hide IdsFit;
    var group := GroupOf(ledger, ids);
    forall e | e in group ensures e in ordered && e.nativeId in read.claimed {
      var k :| 0 <= k < |group| && group[k] == e;
      assert ids[k] in ids;
    }
  }

  // What the scan relies on holds of whatever the loop has read.
  lemma ReadIsSound(ledger: seq<Event>, targets: seq<EventId>, parts: Parts, edge: Option<int>, read: Read)
    requires NativesDiffer(ledger) && targets != [] && |read.outgoing| == |targets|
    requires AllFit(ledger, targets, parts, edge) && IsRead(ledger, targets, parts, read) && EndsDiffer(read.outgoing)
    ensures PartsSound(OrderedFrom(ledger, FirstStart(read.outgoing)), read.outgoing, read.claimed)
  {
    hide NativesDiffer, AllFit, IsRead, EndsDiffer, OrderedFrom, DistinctOutreaches, PartsOf, Sorted, FirstStart;
    var first := FirstStart(read.outgoing);
    var ordered := OrderedFrom(ledger, first);
    OrderedFromIs(ledger, first);
    forall e | e in ordered && e.nativeId in read.claimed ensures !e.incoming {
      ClaimedIsSent(ledger, targets, parts, edge, read, e);
    }
    forall o | o in read.outgoing ensures exists group :: PartsOf(ordered, o, group, read.claimed) {
      var i: nat :| i < |read.outgoing| && read.outgoing[i] == o;
      OutreachHasParts(ledger, targets, parts, edge, read, i, ordered);
    }
    DifferentOutreaches(ledger, targets, parts, edge, read);
  }

  lemma DifferentOutreaches(ledger: seq<Event>, targets: seq<EventId>, parts: Parts, edge: Option<int>, read: Read)
    requires AllFit(ledger, targets, parts, edge) && IsRead(ledger, targets, parts, read) && EndsDiffer(read.outgoing)
    ensures DistinctOutreaches(read.outgoing)
  {
    forall i: nat, j: nat | i < j < |read.outgoing| ensures read.outgoing[i].target != read.outgoing[j].target {
      TargetsDiffer(ledger, targets, parts, edge, i, j);
      assert read.outgoing[i].target == targets[i] && read.outgoing[j].target == targets[j];
    }
  }

  // ------------------------------------------------------------------ the projection

  ghost predicate Accepted(ordered: seq<Event>, read: Read) {
    && OrderSound(ordered, read.claimed) && EndsDiffer(read.outgoing)
    && !Interrupted(ordered, read.outgoing)
    && forall marks | IsTimeline(marks, ordered, read.outgoing) :: !Unmapped(marks)
  }

  // From parts to answers. It succeeds exactly if the parts fit, the order is sound, outreaches
  // end apart, none is interrupted, and every answer is mapped; the answers are then those of
  // the counting rule.
  method ProjectOutreaches(ledger: seq<Event>, targets: seq<EventId>, parts: Parts, edge: Option<int>)
    returns (r: Result<map<EventId, Event>, string>)
    requires NativesDiffer(ledger) && targets != []
    ensures r.Ok? ==> AllFit(ledger, targets, parts, edge)
    ensures forall read | AllFit(ledger, targets, parts, edge) && IsRead(ledger, targets, parts, read) ::
              var ordered := OrderedFrom(ledger, FirstStart(read.outgoing));
              && (r.Ok? <==> Accepted(ordered, read))
              && (r.Ok? ==> forall marks | IsTimeline(marks, ordered, read.outgoing) :: ScanInv(marks, |marks|, r.value))
  {
    hide *;
    var got := ReadOutreaches(ledger, targets, parts, edge);
    if got.Err? {
      return Err(got.error);
    }
    var read := got.value;
    OneReading(ledger, targets, parts, edge, read);
    ReadSome(ledger, targets, parts, read);
    var ordered := OrderedFrom(ledger, FirstStart(read.outgoing));
    OrderedFromIs(ledger, FirstStart(read.outgoing));
    var sound := CheckOrder(ordered, read.claimed);
    Judge(ordered, read);
    if !sound {
      return Err("native-order");
    }
    if !EndsDiffer(read.outgoing) {
      return Err("outreach-order-tie");
    }
    ReadIsSound(ledger, targets, parts, edge, read);
    r := ProjectAnswers(ordered, read.outgoing, read.claimed);
    ghost var marks := ScanStarts(ordered, read.outgoing, read.claimed);
    OneTimeline(ordered, read.outgoing, marks);
  }

  lemma Judge(ordered: seq<Event>, read: Read)
    ensures Accepted(ordered, read) <==>
              && OrderSound(ordered, read.claimed) && EndsDiffer(read.outgoing)
              && !Interrupted(ordered, read.outgoing)
              && forall marks | IsTimeline(marks, ordered, read.outgoing) :: !Unmapped(marks)
  {
    hide OrderSound, EndsDiffer, Interrupted, IsTimeline, Unmapped;
  }

  lemma OneTimeline(ordered: seq<Event>, outgoing: seq<Outreach>, marks: seq<Mark>)
    requires IsTimeline(marks, ordered, outgoing)
    ensures forall other | IsTimeline(other, ordered, outgoing) :: other == marks
  {
    forall other | IsTimeline(other, ordered, outgoing) ensures other == marks {
      TimelineUnique(marks, other, ordered, outgoing);
    }
  }

  lemma ReadSome(ledger: seq<Event>, targets: seq<EventId>, parts: Parts, read: Read)
    requires IsRead(ledger, targets, parts, read) && targets != []
    ensures |read.outgoing| == |targets| > 0
  {}

  lemma OneReading(ledger: seq<Event>, targets: seq<EventId>, parts: Parts, edge: Option<int>, read: Read)
    requires IsRead(ledger, targets, parts, read)
    ensures forall other | IsRead(ledger, targets, parts, other) :: other == read
  {
    forall other | IsRead(ledger, targets, parts, other) ensures other == read {
      assert other.outgoing == read.outgoing;
      assert other.claimed == read.claimed;
    }
  }

  // ------------------------------------------------------------------ later runs

  // An outreach or an incoming message that a run knows.
  ghost predicate Known(ordered: seq<Event>, outgoing: seq<Outreach>, m: Mark) {
    if m.Sent? then m.o in outgoing else m.e in ordered && m.e.incoming
  }

  // The later run knows all the earlier one did, and the rest comes after that.
  ghost predicate ComesLater(ordered: seq<Event>, outgoing: seq<Outreach>, ordered': seq<Event>, outgoing': seq<Outreach>) {
    && (forall m | Known(ordered, outgoing, m) :: Known(ordered', outgoing', m))
    && (forall m, x | Known(ordered, outgoing, m) && Known(ordered', outgoing', x) && !Known(ordered, outgoing, x) ::
          OrderOf(m) < OrderOf(x))
  }

  lemma LaterTimeline(ordered: seq<Event>, outgoing: seq<Outreach>, marks: seq<Mark>,
                      ordered': seq<Event>, outgoing': seq<Outreach>, marks': seq<Mark>)
    requires IsTimeline(marks, ordered, outgoing) && IsTimeline(marks', ordered', outgoing')
    requires ComesLater(ordered, outgoing, ordered', outgoing')
    ensures AllIn(marks, marks') && OnlyLater(marks, marks')
    ensures |marks| <= |marks'| && forall i | 0 <= i < |marks| :: marks[i] == marks'[i]
  {
    TimelineKnows(marks, ordered, outgoing);
    TimelineKnows(marks', ordered', outgoing');
    assert Rising(marks) && Rising(marks');
    hide IsTimeline, Rising, Known, OrderOf;
    assert forall i: nat | i < |marks| :: marks[i] in marks;
    assert forall i: nat | i < |marks'| :: marks'[i] in marks';
    assert AllIn(marks, marks') && OnlyLater(marks, marks');
    hide ComesLater, AllIn, OnlyLater;
    LaterMarksAppend(marks, marks', |marks|);
  }

  // The answers of a run are among those of every later run.
  lemma LaterRunsKeepAnswers(ordered: seq<Event>, outgoing: seq<Outreach>, marks: seq<Mark>, answers: map<EventId, Event>,
                             ordered': seq<Event>, outgoing': seq<Outreach>, marks': seq<Mark>,
                             answers': map<EventId, Event>)
    requires IsTimeline(marks, ordered, outgoing) && ScanInv(marks, |marks|, answers)
    requires IsTimeline(marks', ordered', outgoing') && ScanInv(marks', |marks'|, answers')
    requires ComesLater(ordered, outgoing, ordered', outgoing')
    ensures forall t | t in answers :: t in answers' && answers'[t] == answers[t]
  {
    LaterTimeline(ordered, outgoing, marks, ordered', outgoing', marks');
    assert Rising(marks) && Rising(marks');
    hide IsTimeline, Rising, ComesLater, AllIn, OnlyLater, OutreachPairing.Answered;
    forall t | t in answers ensures t in answers' && answers'[t] == answers[t] {
      var i: nat, j: nat :| AnswerTo(marks, i, j, t, answers[t]) && j < |marks|;
      LaterKeepsAnswers(marks, marks', i, j);
      AnswerBelow(marks, i, j);
    }
  }

  lemma TimelineKnows(marks: seq<Mark>, ordered: seq<Event>, outgoing: seq<Outreach>)
    requires IsTimeline(marks, ordered, outgoing)
    ensures forall m :: m in marks <==> Known(ordered, outgoing, m)
  {}

  lemma AnswerBelow(marks: seq<Mark>, i: nat, j: nat)
    requires OutreachPairing.Answered(marks, i, j)
    ensures i < j < |marks|
  {
    AnswersForward(Items(marks), i, j);
    AnswerIsReceived(marks, i, j);
  }
}

/**
 Which incoming message answers which outreach. Every incoming message, in order, is given
 to the latest outreach that has ended and has no answer yet.
 */
module OutreachPairing {
  import opened Wrappers
  import opened ReplyPairing

  datatype Event = Event(nativeId: string, order: int, timestamp: int, incoming: bool, eventId: Option<EventId>)

  // One outreach, spanning the native events that are its parts.
  datatype Outreach = Outreach(target: EventId, start: int, end: int, timestamp: int)

  ghost predicate Spans(o: Outreach, group: seq<Event>) {
    && group != []
    && (forall e | e in group :: !e.incoming && o.start <= e.order <= o.end && e.timestamp <= o.timestamp)
    && (exists e | e in group :: e.order == o.start) && (exists e | e in group :: e.order == o.end)
    && (exists e | e in group :: e.timestamp == o.timestamp)
  }

  // ------------------------------------------------------------------ the order checks

  ghost predicate Sorted(ordered: seq<Event>) {
    forall i, j | 0 <= i < j < |ordered| :: ordered[i].order <= ordered[j].order
  }

  // Only parts of outreaches may share a place in the order.
  ghost predicate TiesClaimed(ordered: seq<Event>, claimed: set<string>) {
    forall i, j | 0 <= i < j < |ordered| && ordered[i].order == ordered[j].order ::
      ordered[i].nativeId in claimed && ordered[j].nativeId in claimed
  }

  ghost predicate TimesRise(ordered: seq<Event>) {
    && (forall i, j | 0 <= i < j < |ordered| :: ordered[i].timestamp <= ordered[j].timestamp)
    && (forall i | 0 <= i < |ordered| :: ordered[i].timestamp >= 0)
  }

  ghost predicate IncomingOnce(ordered: seq<Event>) {
    forall i, j | 0 <= i < j < |ordered| && ordered[i].incoming && ordered[j].incoming && ordered[i].eventId.Some? ::
      ordered[i].eventId != ordered[j].eventId
  }

  ghost predicate OrderSound(ordered: seq<Event>, claimed: set<string>) {
    TiesClaimed(ordered, claimed) && TimesRise(ordered) && IncomingOnce(ordered)
  }

  lemma OrderSoundLast(ordered: seq<Event>, claimed: set<string>, k: nat)
    requires k < |ordered| && Sorted(ordered) && OrderSound(ordered[..k], claimed)
    ensures OrderSound(ordered[..k + 1], claimed) <==>
      (var e := ordered[k];
       && (forall i | 0 <= i < k && ordered[i].order == e.order :: ordered[i].nativeId in claimed && e.nativeId in claimed)
       && e.timestamp >= (if k == 0 then 0 else ordered[k - 1].timestamp)
       && (e.incoming && e.eventId.Some? ==>
             forall i | 0 <= i < k && ordered[i].incoming :: ordered[i].eventId != e.eventId))
  {
    var next, e := ordered[..k + 1], ordered[k];
    assert next[k] == e && forall i | 0 <= i < k :: next[i] == ordered[i] == ordered[..k][i];
    if OrderSound(next, claimed) {
      forall i | 0 <= i < k && ordered[i].incoming && e.incoming && e.eventId.Some? ensures ordered[i].eventId != e.eventId {
        assert next[i].incoming && next[k].incoming;
      }
    }
  }

  // `orders` remembers the last event of each place, `lastTime` the last timestamp.
  method CheckOrder(ordered: seq<Event>, claimed: set<string>) returns (ok: bool)
    requires Sorted(ordered)
    ensures ok <==> OrderSound(ordered, claimed)
  {
    var orders: map<int, string>, incoming: set<EventId>, lastTime := map[], {}, 0;
    for k := 0 to |ordered|
      invariant OrderSound(ordered[..k], claimed)
      invariant lastTime == if k == 0 then 0 else ordered[k - 1].timestamp
      invariant incoming == set i | 0 <= i < k && ordered[i].incoming && ordered[i].eventId.Some? :: ordered[i].eventId.value
      invariant Remembers(ordered, k, orders)
    {
      hide OrderSound, Remembers;
      var e := ordered[k];
      OrderSoundLast(ordered, claimed, k);
      TiesFollow(ordered, claimed, k, orders);
      if e.incoming && e.eventId.Some? {
        if e.eventId.value in incoming {
          Unsound(ordered, claimed, k + 1);
          return false;
        }
        incoming := incoming + {e.eventId.value};
      }
      if e.order in orders && !(e.nativeId in claimed && orders[e.order] in claimed) {
        Unsound(ordered, claimed, k + 1);
        return false;
      }
      orders := orders[e.order := e.nativeId];
      if e.timestamp < lastTime {
        Unsound(ordered, claimed, k + 1);
        return false;
      }
      lastTime := e.timestamp;
    }
    assert ordered[..|ordered|] == ordered;
    return true;
  }

  lemma Unsound(ordered: seq<Event>, claimed: set<string>, k: nat)
    requires k <= |ordered| && !OrderSound(ordered[..k], claimed)
    ensures !OrderSound(ordered, claimed)
  {
    if OrderSound(ordered, claimed) {
      assert forall i | 0 <= i < k :: ordered[..k][i] == ordered[i];
    }
  }

  // Each place seen, with the last event there.
  ghost predicate Remembers(ordered: seq<Event>, k: nat, orders: map<int, string>)
    requires k <= |ordered|
  {
    && (forall i | 0 <= i < k :: ordered[i].order in orders)
    && (forall o | o in orders :: exists i :: 0 <= i < k && ordered[i].order == o && ordered[i].nativeId == orders[o])
  }

  // Looking at the last event of a place is enough: all before it there are claimed.
  lemma TiesFollow(ordered: seq<Event>, claimed: set<string>, k: nat, orders: map<int, string>)
    requires k < |ordered| && OrderSound(ordered[..k], claimed) && Remembers(ordered, k, orders)
    ensures ordered[k].order in orders ==>
      ((ordered[k].nativeId in claimed && orders[ordered[k].order] in claimed)
       <==> forall i | 0 <= i < k && ordered[i].order == ordered[k].order ::
              ordered[i].nativeId in claimed && ordered[k].nativeId in claimed)
    ensures ordered[k].order !in orders ==> forall i | 0 <= i < k :: ordered[i].order != ordered[k].order
    ensures Remembers(ordered, k + 1, orders[ordered[k].order := ordered[k].nativeId])
  {
    if ordered[k].order in orders {
      var j :| 0 <= j < k && ordered[j].order == ordered[k].order && ordered[j].nativeId == orders[ordered[k].order];
      forall i | 0 <= i < k && ordered[i].order == ordered[k].order && i != j
        ensures ordered[i].nativeId in claimed && ordered[j].nativeId in claimed
      {
        assert ordered[..k][i] == ordered[i] && ordered[..k][j] == ordered[j];
      }
    }
  }

  // With the order checked, an event behind an outreach is not older than it either.
  lemma TimestampTestExcludesNone(ordered: seq<Event>, o: Outreach, group: seq<Event>, e: Event)
    requires Sorted(ordered) && TimesRise(ordered) && e in ordered && Spans(o, group)
    requires (forall p | p in group :: p in ordered) && o.end < e.order
    ensures o.timestamp <= e.timestamp
  {
    var p :| p in group && p.timestamp == o.timestamp;
    var i :| 0 <= i < |ordered| && ordered[i] == p;
    var j :| 0 <= j < |ordered| && ordered[j] == e;
    assert p.order <= o.end;
  }

  // ------------------------------------------------------------------ the timeline

  // An outreach at its last part, or an incoming message.
  datatype Mark = Sent(o: Outreach) | Received(e: Event)

  function OrderOf(m: Mark): int {
    if m.Sent? then m.o.end else m.e.order
  }

  ghost predicate Rising(marks: seq<Mark>) {
    forall i, j | 0 <= i < j < |marks| :: OrderOf(marks[i]) < OrderOf(marks[j])
  }

  function Items(marks: seq<Mark>): seq<Item> {
    seq(|marks|, i requires 0 <= i < |marks| =>
      if marks[i].Sent? then Item(marks[i].o.target, false) else Item(marks[i].e.nativeId, true))
  }

  // ------------------------------------------------------------------ later messages

  lemma RisingMeansDistinct(marks: seq<Mark>, i: nat, j: nat)
    requires Rising(marks) && i < |marks| && j < |marks| && OrderOf(marks[i]) <= OrderOf(marks[j])
    ensures i <= j
  {}

  ghost predicate AllIn(marks: seq<Mark>, all: seq<Mark>) {
    forall i: nat | i < |marks| :: marks[i] in all
  }

  // Whatever `all` has that `marks` has not is behind everything in `marks`.
  ghost predicate OnlyLater(marks: seq<Mark>, all: seq<Mark>) {
    forall i: nat, j: nat | i < |marks| && j < |all| && all[j] !in marks :: OrderOf(marks[i]) < OrderOf(all[j])
  }

  lemma NotLaterIsOld(marks: seq<Mark>, all: seq<Mark>, i: nat, j: nat) returns (q: nat)
    requires OnlyLater(marks, all) && i < |marks| && j < |all| && OrderOf(all[j]) <= OrderOf(marks[i])
    ensures q < |marks| && marks[q] == all[j]
  {
    q :| q < |marks| && marks[q] == all[j];
  }

  lemma PlaceOf(marks: seq<Mark>, all: seq<Mark>, i: nat) returns (p: nat)
    requires AllIn(marks, all) && i < |marks|
    ensures p < |all| && all[p] == marks[i]
  {
    assert marks[i] in all;
    p :| p < |all| && all[p] == marks[i];
  }

  // Then the old marks stand where they stood.
  lemma {:induction false} LaterMarksAppend(marks: seq<Mark>, all: seq<Mark>, n: nat)
    requires Rising(marks) && Rising(all) && AllIn(marks, all) && OnlyLater(marks, all) && n <= |marks|
    ensures n <= |all| && forall i | 0 <= i < n :: marks[i] == all[i]
  {
    hide Rising, AllIn, OnlyLater, OrderOf;
    if n > 0 {
      var k := n - 1;
      LaterMarksAppend(marks, all, k);
      var p := PlaceOf(marks, all, k);
      if p < k {
        RisingMeansDistinct(marks, k, p);
      } else if OrderOf(all[k]) <= OrderOf(all[p]) {
        var q := NotLaterIsOld(marks, all, k, k);
        if q < k {
          RisingMeansDistinct(all, k, q);
        } else {
          RisingMeansDistinct(marks, q, k);
        }
      } else {
        RisingMeansDistinct(all, p, k);
      }
    }
  }

  // Outreach i is answered by incoming message j: the counting rule on the timeline.
  ghost predicate Answered(marks: seq<Mark>, i: nat, j: nat) {
    i < |marks| && marks[i].Sent? && Answers(Items(marks), i, j)
  }

  lemma AnswerIsReceived(marks: seq<Mark>, i: nat, j: nat)
    requires Answered(marks, i, j)
    ensures j < |marks| && marks[j].Received?
  {
    AnswerShape(Items(marks), i, j);
  }

  // Outreaches and messages that come later take no answer away and change none.
  lemma LaterKeepsAnswers(marks: seq<Mark>, all: seq<Mark>, i: nat, j: nat)
    requires Rising(marks) && Rising(all) && AllIn(marks, all) && OnlyLater(marks, all) && j < |marks|
    ensures Answered(marks, i, j) <==> Answered(all, i, j)
  {
    LaterMarksAppend(marks, all, |marks|);
    assert all == marks + all[|marks|..];
    hide *;
    AnswersBeforeMore(marks, all[|marks|..], i, j);
  }

  lemma AnswersBeforeMore(marks: seq<Mark>, more: seq<Mark>, i: nat, j: nat)
    requires j < |marks|
    ensures Answered(marks, i, j) <==> Answered(marks + more, i, j)
  {
    hide Answers;
    AnswersMove([], Items(marks), Items(more), i, j);
    assert Items(marks + more) == [] + Items(marks) + Items(more);
    assert Answers(Items(marks), i, j) ==> i < j by { AnswersForward(Items(marks), i, j); }
    assert Answers(Items(marks + more), i, j) ==> i < j by { AnswersForward(Items(marks + more), i, j); }
  }

  lemma AnswersForward(s: seq<Item>, i: nat, j: nat)
    ensures Answers(s, i, j) ==> i < j
  {}

  // ------------------------------------------------------------------ the greedy scan

  predicate InsideParts(o: Outreach, e: Event) {
    o.start <= e.order <= o.end
  }

  predicate Eligible(o: Outreach, used: set<EventId>, e: Event) {
    o.target !in used && o.end < e.order && o.timestamp <= e.timestamp
  }

  ghost predicate DistinctOutreaches(outgoing: seq<Outreach>) {
    forall i, j | 0 <= i < j < |outgoing| :: outgoing[i].target != outgoing[j].target && outgoing[i].end != outgoing[j].end
  }

  // The newest open outreach before message n has nothing above it on the stack.
  lemma TopIsAnswered(s: seq<Item>, n: nat, i: nat)
    requires i < n < |s| && s[n].incoming && !s[i].incoming && OpenTo(s, i, n)
    requires forall k: nat | i < k < n && !s[k].incoming :: !OpenTo(s, k, n)
    ensures Answers(s, i, n)
  {
    hide TakeFirst, LinkedTo;
    PairRun(s, n);
    var stack := TakeFirst(s, n).pending.outgoing;
    assert OnStack(s, n, stack, i);
    var t := stack[|stack| - 1];
    assert OpenTo(s, t, n) && Balance(s, t, n) == 0;
    if t < i {
      BalanceSplit(s, t, i, n);
    }
  }

  // What the scan has handed out when it has come to mark n.
  ghost predicate ScanInv(marks: seq<Mark>, n: nat, answers: map<EventId, Event>) {
    && (forall i: nat, j: nat | Answered(marks, i, j) && j < n ::
          marks[i].o.target in answers && marks[j] == Received(answers[marks[i].o.target]))
    && (forall t | t in answers :: exists i: nat, j: nat :: AnswerTo(marks, i, j, t, answers[t]) && j < n)
  }

  ghost predicate AnswerTo(marks: seq<Mark>, i: nat, j: nat, t: EventId, e: Event) {
    Answered(marks, i, j) && marks[i].o.target == t && j < |marks| && marks[j] == Received(e)
  }

  // Targets tell outreaches apart.
  ghost predicate DistinctMarks(marks: seq<Mark>) {
    forall i, j | 0 <= i < j < |marks| && marks[i].Sent? && marks[j].Sent? :: marks[i].o.target != marks[j].o.target
  }

  lemma OpenIsUnanswered(marks: seq<Mark>, i: nat, n: nat, answers: map<EventId, Event>)
    requires ScanInv(marks, n, answers) && DistinctMarks(marks) && i < n <= |marks| && marks[i].Sent?
    ensures marks[i].o.target !in answers <==> OpenTo(Items(marks), i, n)
  {
    var s := Items(marks);
    if !OpenTo(s, i, n) {
      var k: nat :| i < k <= n && Balance(s, i, k) < 0;
      var j := FirstCrossing(s, i, k);
      assert Answered(marks, i, j);
    }
    if marks[i].o.target in answers {
      var t := marks[i].o.target;
      var x: nat, j: nat :| AnswerTo(marks, x, j, t, answers[t]) && j < n;
      assert x == i && Balance(s, i, j + 1) < 0;
    }
  }

  // Marks that are not incoming messages answer nothing.
  lemma ScanPasses(marks: seq<Mark>, n: nat, m: nat, answers: map<EventId, Event>)
    requires ScanInv(marks, n, answers) && n <= m && forall j: nat | n <= j < m && j < |marks| :: marks[j].Sent?
    ensures ScanInv(marks, m, answers)
  {
    forall i: nat, j: nat | Answered(marks, i, j) && j < m ensures j < n {
      AnswerIsReceived(marks, i, j);
    }
  }

  // Whoever is open before an incoming message and has no open one after it is answered.
  lemma ScanAnswers(marks: seq<Mark>, n: nat, i: nat, answers: map<EventId, Event>)
    requires n < |marks| && ScanInv(marks, n, answers) && DistinctMarks(marks) && marks[n].Received?
    requires i < n && marks[i].Sent? && marks[i].o.target !in answers
    requires forall k: nat | i < k < n && marks[k].Sent? :: marks[k].o.target in answers
    ensures Answered(marks, i, n) && ScanInv(marks, n + 1, answers[marks[i].o.target := marks[n].e])
  {
    var s := Items(marks);
    OpenIsUnanswered(marks, i, n, answers);
    forall k: nat | i < k < n && !s[k].incoming ensures !OpenTo(s, k, n) {
      OpenIsUnanswered(marks, k, n, answers);
    }
    TopIsAnswered(s, n, i);
    var next := answers[marks[i].o.target := marks[n].e];
    forall x: nat, j: nat | Answered(marks, x, j) && j < n + 1
      ensures marks[x].o.target in next && marks[j] == Received(next[marks[x].o.target])
    {
      if j == n {
        AnswersInjective(s, x, i, n);
      } else if x == i {
        AnswersUnique(s, i, j, n);
      }
    }
    assert AnswerTo(marks, i, n, marks[i].o.target, marks[n].e);
    forall t | t in next ensures exists x: nat, j: nat :: AnswerTo(marks, x, j, t, next[t]) && j < n + 1 {
      if t != marks[i].o.target {
        var x, j: nat :| AnswerTo(marks, x, j, t, answers[t]) && j < n;
      }
    }
  }

  // With none open, the message answers nothing.
  lemma ScanAnswersNone(marks: seq<Mark>, n: nat, answers: map<EventId, Event>)
    requires n < |marks| && ScanInv(marks, n, answers) && DistinctMarks(marks)
    requires forall k: nat | k < n && marks[k].Sent? :: marks[k].o.target in answers
    ensures ScanInv(marks, n + 1, answers)
  {
    forall i: nat, j: nat | Answered(marks, i, j) && j < n + 1 ensures j < n {
      if j == n {
        OpenIsUnanswered(marks, i, n, answers);
      }
    }
  }

  // ------------------------------------------------------------------ there is a timeline

  // What the reader of the parts has checked: parts are sent events, and an outreach ends
  // where one of its parts is.
  ghost predicate PartsSound(ordered: seq<Event>, outgoing: seq<Outreach>, claimed: set<string>) {
    && DistinctOutreaches(outgoing)
    && (forall e | e in ordered && e.nativeId in claimed :: !e.incoming)
    && (forall o | o in outgoing :: exists group :: PartsOf(ordered, o, group, claimed))
  }

  ghost predicate PartsOf(ordered: seq<Event>, o: Outreach, group: seq<Event>, claimed: set<string>) {
    Spans(o, group) && forall e | e in group :: e in ordered && e.nativeId in claimed
  }

  ghost predicate Fresh(marks: seq<Mark>, m: Mark) {
    forall i | 0 <= i < |marks| :: OrderOf(marks[i]) != OrderOf(m)
  }

  lemma {:induction false} InsertMark(marks: seq<Mark>, m: Mark) returns (r: seq<Mark>)
    requires Rising(marks) && Fresh(marks, m)
    ensures Rising(r) && (forall x :: x in r <==> x in marks || x == m)
  {
    if marks == [] || OrderOf(marks[|marks| - 1]) < OrderOf(m) {
      r := marks + [m];
    } else {
      var last := marks[|marks| - 1];
      var front := InsertMark(marks[..|marks| - 1], m);
      forall i | 0 <= i < |front| ensures OrderOf(front[i]) < OrderOf(last) {
        assert front[i] in front;
      }
      r := front + [last];
      assert marks == marks[..|marks| - 1] + [last];
    }
  }

  // Incoming messages share their place with nothing.
  lemma IncomingAlone(ordered: seq<Event>, claimed: set<string>, i: nat, j: nat)
    requires TiesClaimed(ordered, claimed) && (forall e | e in ordered && e.nativeId in claimed :: !e.incoming)
    requires i < |ordered| && j < |ordered| && i != j && ordered[i].incoming
    ensures ordered[i].order != ordered[j].order
  {
    assert ordered[i] in ordered;
  }

  lemma {:induction false} IncomingMarks(ordered: seq<Event>, claimed: set<string>, k: nat) returns (marks: seq<Mark>)
    requires Sorted(ordered) && TiesClaimed(ordered, claimed) && k <= |ordered|
    requires forall e | e in ordered && e.nativeId in claimed :: !e.incoming
    ensures Rising(marks) && forall m :: m in marks <==> m.Received? && m.e in ordered[..k] && m.e.incoming
  {
    marks := [];
    if k > 0 {
      var e := ordered[k - 1];
      marks := IncomingMarks(ordered, claimed, k - 1);
      assert ordered[..k] == ordered[..k - 1] + [e];
      if e.incoming {
        forall i | 0 <= i < |marks| ensures OrderOf(marks[i]) < e.order {
          assert marks[i] in marks;
          var x :| 0 <= x < k - 1 && ordered[x] == marks[i].e;
          IncomingAlone(ordered, claimed, k - 1, x);
        }
        marks := marks + [Received(e)];
      }
    }
  }

  lemma {:induction false} TimelineExists(ordered: seq<Event>, outgoing: seq<Outreach>, claimed: set<string>)
    returns (marks: seq<Mark>)
    requires Sorted(ordered) && TiesClaimed(ordered, claimed) && PartsSound(ordered, outgoing, claimed)
    ensures Rising(marks)
    ensures forall m :: m in marks <==> if m.Sent? then m.o in outgoing else m.e in ordered && m.e.incoming
    decreases |outgoing|
  {
    if outgoing == [] {
      marks := IncomingMarks(ordered, claimed, |ordered|);
      assert ordered[..|ordered|] == ordered;
    } else {
      var front, o := outgoing[..|outgoing| - 1], outgoing[|outgoing| - 1];
      assert outgoing == front + [o];
      forall x | x in front ensures exists group :: PartsOf(ordered, x, group, claimed) {
        assert x in outgoing;
      }
      var before := TimelineExists(ordered, front, claimed);
      forall i | 0 <= i < |before| ensures OrderOf(before[i]) != o.end {
        assert before[i] in before;
        if before[i].Received? {
          EndIsAlone(ordered, outgoing, claimed, o, before[i].e);
        }
      }
      marks := InsertMark(before, Sent(o));
    }
  }

  lemma EndIsAlone(ordered: seq<Event>, outgoing: seq<Outreach>, claimed: set<string>, o: Outreach, e: Event)
    requires TiesClaimed(ordered, claimed) && PartsSound(ordered, outgoing, claimed)
    requires o in outgoing && e in ordered && e.incoming
    ensures e.order != o.end
  {
    var group :| PartsOf(ordered, o, group, claimed);
    var p: Event :| p in group && p.order == o.end;
    var i: nat :| i < |ordered| && ordered[i] == e;
    var j: nat :| j < |ordered| && ordered[j] == p;
    IncomingAlone(ordered, claimed, i, j);
  }

  // ------------------------------------------------------------------ the scan over events

  ghost predicate IsTimeline(marks: seq<Mark>, ordered: seq<Event>, outgoing: seq<Outreach>) {
    && Rising(marks) && DistinctMarks(marks)
    && forall m :: m in marks <==> if m.Sent? then m.o in outgoing else m.e in ordered && m.e.incoming
  }

  lemma MarksAreDistinct(marks: seq<Mark>, outgoing: seq<Outreach>)
    requires Rising(marks) && DistinctOutreaches(outgoing) && forall m | m in marks && m.Sent? :: m.o in outgoing
    ensures DistinctMarks(marks)
  {
    forall i, j | 0 <= i < j < |marks| && marks[i].Sent? && marks[j].Sent?
      ensures marks[i].o.target != marks[j].o.target
    {
      assert marks[i] in marks && marks[j] in marks;
      var x :| 0 <= x < |outgoing| && outgoing[x] == marks[i].o;
      var y :| 0 <= y < |outgoing| && outgoing[y] == marks[j].o;
      assert OrderOf(marks[i]) < OrderOf(marks[j]);
    }
  }

  // The incoming marks before n are the incoming ones of the first k events.
  ghost predicate Level(marks: seq<Mark>, n: nat, ordered: seq<Event>, k: nat)
    requires k <= |ordered|
  {
    && n <= |marks|
    && (forall j: nat | j < n && marks[j].Received? :: marks[j].e in ordered[..k])
    && (forall j: nat | n <= j < |marks| && marks[j].Received? :: marks[j].e in ordered[k..])
  }

  lemma NextMark(marks: seq<Mark>, n: nat, ordered: seq<Event>, outgoing: seq<Outreach>, claimed: set<string>, k: nat)
    returns (p: nat)
    requires k < |ordered| && Sorted(ordered) && OrderSound(ordered, claimed) && PartsSound(ordered, outgoing, claimed)
    requires IsTimeline(marks, ordered, outgoing) && Level(marks, n, ordered, k) && ordered[k].incoming
    ensures n <= p < |marks| && marks[p] == Received(ordered[k])
    ensures forall j: nat | n <= j < p :: marks[j].Sent?
    ensures Level(marks, p + 1, ordered, k + 1)
  {
    var e := ordered[k];
    assert Received(e) in marks;
    forall i: nat | i < k ensures ordered[i] != e {
      IncomingAlone(ordered, claimed, k, i);
    }
    p :| p < |marks| && marks[p] == Received(e);
    assert ordered[..k + 1] == ordered[..k] + [e];
    hide TiesClaimed, TimesRise, IncomingOnce, PartsSound;
    forall j: nat | n <= j < |marks| && marks[j].Received? && j != p ensures p < j && marks[j].e in ordered[k + 1..] {
      BehindMark(marks, ordered, k, p, j);
    }
  }

  lemma BehindMark(marks: seq<Mark>, ordered: seq<Event>, k: nat, p: nat, j: nat)
    requires Rising(marks) && Sorted(ordered) && k < |ordered| && p < |marks| && marks[p] == Received(ordered[k])
    requires j < |marks| && j != p && marks[j].Received? && marks[j].e in ordered[k..]
    ensures p < j && marks[j].e in ordered[k + 1..]
  {
    var i: nat :| k <= i < |ordered| && ordered[i] == marks[j].e;
    RisingMeansDistinct(marks, p, j);
    assert i != k;
    assert ordered[k + 1..][i - k - 1] == marks[j].e;
  }

  lemma LevelPasses(marks: seq<Mark>, n: nat, ordered: seq<Event>, outgoing: seq<Outreach>, k: nat)
    requires k < |ordered| && IsTimeline(marks, ordered, outgoing) && Level(marks, n, ordered, k) && !ordered[k].incoming
    ensures Level(marks, n, ordered, k + 1)
  {
    assert ordered[..k + 1] == ordered[..k] + [ordered[k]] && ordered[k..] == [ordered[k]] + ordered[k + 1..];
    forall j: nat | n <= j < |marks| && marks[j].Received? ensures marks[j].e in ordered[k + 1..] {
      assert marks[j] in marks;
    }
  }

  // The eligible outreach that ended last.
  method Latest(outgoing: seq<Outreach>, used: set<EventId>, e: Event) returns (best: Option<Outreach>)
    ensures best.None? ==> forall o | o in outgoing :: !Eligible(o, used, e)
    ensures best.Some? ==> best.value in outgoing && Eligible(best.value, used, e)
    ensures best.Some? ==> forall o | o in outgoing && Eligible(o, used, e) :: o.end <= best.value.end
    // Eligible: without an answer, over before the message, and not younger.
    ensures best.Some? <==> exists o | o in outgoing ::
              o.target !in used && o.end < e.order && o.timestamp <= e.timestamp
    ensures best.Some? ==> best.value.target !in used && best.value.end < e.order && best.value.timestamp <= e.timestamp
  {
    best := None;
    for i := 0 to |outgoing|
      invariant best.None? ==> forall o | o in outgoing[..i] :: !Eligible(o, used, e)
      invariant best.Some? ==> best.value in outgoing && Eligible(best.value, used, e)
      invariant best.Some? ==> forall o | o in outgoing[..i] && Eligible(o, used, e) :: o.end <= best.value.end
    {
      assert outgoing[..i + 1] == outgoing[..i] + [outgoing[i]];
      if Eligible(outgoing[i], used, e) && (best.None? || outgoing[i].end > best.value.end) {
        best := Some(outgoing[i]);
      }
    }
    assert outgoing[..|outgoing|] == outgoing;
  }

  predicate Interrupts(outgoing: seq<Outreach>, e: Event) {
    e.incoming && exists o | o in outgoing :: InsideParts(o, e)
  }

  // An incoming message falls among the parts of an outreach.
  ghost predicate Interrupted(ordered: seq<Event>, outgoing: seq<Outreach>) {
    exists i, o | 0 <= i < |ordered| && o in outgoing ::
      ordered[i].incoming && o.start <= ordered[i].order <= o.end
  }

  ghost predicate Unmapped(marks: seq<Mark>) {
    exists i: nat, j: nat :: Answered(marks, i, j) && j < |marks| && marks[j].Received? && marks[j].e.eventId.None?
  }

  // One incoming message, given to the latest eligible outreach if there is one.
  method GiveMessage(ordered: seq<Event>, outgoing: seq<Outreach>, ghost claimed: set<string>, ghost marks: seq<Mark>,
                     ghost n: nat, k: nat, answers: map<EventId, Event>)
    returns (given: Option<map<EventId, Event>>, ghost n': nat)
    requires Sorted(ordered) && OrderSound(ordered, claimed) && PartsSound(ordered, outgoing, claimed)
    requires IsTimeline(marks, ordered, outgoing) && k < |ordered| && ordered[k].incoming
    requires Level(marks, n, ordered, k) && ScanInv(marks, n, answers)
    requires forall t | t in answers :: answers[t].eventId.Some?
    ensures given.None? ==> Unmapped(marks)
    ensures given.Some? ==> Level(marks, n', ordered, k + 1) && ScanInv(marks, n', given.value)
    ensures given.Some? ==> forall t | t in given.value :: given.value[t].eventId.Some?
  {
    hide *;
    var e := ordered[k];
    ghost var p := NextMark(marks, n, ordered, outgoing, claimed, k);
    ScanPasses(marks, n, p, answers);
    var best := Latest(outgoing, answers.Keys, e);
    ScanStep(marks, p, ordered, outgoing, claimed, answers, best);
    n' := p + 1;
    if best.None? {
      return Some(answers), n';
    }
    if e.eventId.None? {
      NotMapped(marks, p);
      return None, n';
    }
    return Some(answers[best.value.target := e]), n';
  }

  // The scan hands out exactly the answers of the counting rule. It refuses only if an
  // incoming message falls among the parts of an outreach or an answer is not mapped.
  method ProjectAnswers(ordered: seq<Event>, outgoing: seq<Outreach>, ghost claimed: set<string>)
    returns (r: Result<map<EventId, Event>, string>)
    requires Sorted(ordered) && OrderSound(ordered, claimed) && PartsSound(ordered, outgoing, claimed)
    ensures forall marks | IsTimeline(marks, ordered, outgoing) ::
              && (r.Ok? <==> !Interrupted(ordered, outgoing) && !Unmapped(marks))
              && (r.Ok? ==> ScanInv(marks, |marks|, r.value))
  {
    ghost var marks := ScanStarts(ordered, outgoing, claimed);
    hide *;
    r := ScanEvents(ordered, outgoing, claimed, marks);
    forall other | IsTimeline(other, ordered, outgoing) ensures other == marks {
      TimelineUnique(marks, other, ordered, outgoing);
    }
  }

  // There is one timeline at most.
  lemma TimelineUnique(marks: seq<Mark>, other: seq<Mark>, ordered: seq<Event>, outgoing: seq<Outreach>)
    requires IsTimeline(marks, ordered, outgoing) && IsTimeline(other, ordered, outgoing)
    ensures other == marks
  {
    forall i: nat | i < |marks| ensures marks[i] in other {
      assert marks[i] in marks;
    }
    forall i: nat | i < |other| ensures other[i] in marks {
      assert other[i] in other;
    }
    LaterMarksAppend(marks, other, |marks|);
    LaterMarksAppend(other, marks, |other|);
  }

  method ScanEvents(ordered: seq<Event>, outgoing: seq<Outreach>, ghost claimed: set<string>, ghost marks: seq<Mark>)
    returns (r: Result<map<EventId, Event>, string>)
    requires Sorted(ordered) && OrderSound(ordered, claimed) && PartsSound(ordered, outgoing, claimed)
    requires IsTimeline(marks, ordered, outgoing) && Level(marks, 0, ordered, 0) && ScanInv(marks, 0, map[])
    ensures r.Ok? <==> !Interrupted(ordered, outgoing) && !Unmapped(marks)
    ensures r.Ok? ==> ScanInv(marks, |marks|, r.value)
  {
    hide *;
    var answers: map<EventId, Event> := map[];
    ghost var n := 0;
    for k := 0 to |ordered|
      invariant Level(marks, n, ordered, k) && ScanInv(marks, n, answers)
      invariant forall t | t in answers :: answers[t].eventId.Some?
      invariant forall i | 0 <= i < k :: !Interrupts(outgoing, ordered[i])
    {
      var e := ordered[k];
      if !e.incoming {
        LevelPasses(marks, n, ordered, outgoing, k);
        assert !Interrupts(outgoing, e) by { NotInterrupting(outgoing, e); }
      } else {
        if Interrupts(outgoing, e) {
          assert Interrupted(ordered, outgoing) by { InterruptedAt(ordered, outgoing, k); }
          return Err("incoming-between-outgoing-parts");
        }
        var given: Option<map<EventId, Event>>;
        given, n := GiveMessage(ordered, outgoing, claimed, marks, n, k, answers);
        if given.None? {
          return Err("native-incoming-not-mapped");
        }
        answers := given.value;
      }
    }
    ScanEnds(marks, n, ordered, answers);
    NeverInterrupted(ordered, outgoing);
    return Ok(answers);
  }

  lemma InterruptedAt(ordered: seq<Event>, outgoing: seq<Outreach>, k: nat)
    requires k < |ordered| && Interrupts(outgoing, ordered[k])
    ensures Interrupted(ordered, outgoing)
  {
    var o :| o in outgoing && InsideParts(o, ordered[k]);
  }

  lemma NeverInterrupted(ordered: seq<Event>, outgoing: seq<Outreach>)
    requires forall i | 0 <= i < |ordered| :: !Interrupts(outgoing, ordered[i])
    ensures !Interrupted(ordered, outgoing)
  {
    forall i, o | 0 <= i < |ordered| && o in outgoing && ordered[i].incoming
      ensures !(o.start <= ordered[i].order <= o.end)
    {
      assert !InsideParts(o, ordered[i]) by { assert !Interrupts(outgoing, ordered[i]); }
    }
  }

  lemma NotInterrupting(outgoing: seq<Outreach>, e: Event)
    requires !e.incoming
    ensures !Interrupts(outgoing, e)
  {}

  lemma NotMapped(marks: seq<Mark>, p: nat)
    requires p < |marks| && marks[p].Received? && marks[p].e.eventId.None? && exists i: nat :: Answered(marks, i, p)
    ensures Unmapped(marks)
  {}

  lemma ScanStarts(ordered: seq<Event>, outgoing: seq<Outreach>, claimed: set<string>) returns (marks: seq<Mark>)
    requires Sorted(ordered) && OrderSound(ordered, claimed) && PartsSound(ordered, outgoing, claimed)
    ensures IsTimeline(marks, ordered, outgoing) && Level(marks, 0, ordered, 0) && ScanInv(marks, 0, map[])
  {
    marks := TimelineExists(ordered, outgoing, claimed);
    MarksAreDistinct(marks, outgoing);
    assert ordered[0..] == ordered;
    assert forall j: nat | j < |marks| :: marks[j] in marks;
  }

  lemma ScanEnds(marks: seq<Mark>, n: nat, ordered: seq<Event>, answers: map<EventId, Event>)
    requires Level(marks, n, ordered, |ordered|) && ScanInv(marks, n, answers)
    requires forall t | t in answers :: answers[t].eventId.Some?
    ensures ScanInv(marks, |marks|, answers) && !Unmapped(marks)
  {
    ScanPasses(marks, n, |marks|, answers);
    forall i: nat, j: nat | Answered(marks, i, j) && j < |marks| && marks[j].Received? ensures marks[j].e.eventId.Some? {
      assert marks[i].o.target in answers;
    }
  }

  lemma OpenIsEligible(marks: seq<Mark>, p: nat, ordered: seq<Event>, outgoing: seq<Outreach>, claimed: set<string>, k: nat)
    requires Sorted(ordered) && OrderSound(ordered, claimed) && PartsSound(ordered, outgoing, claimed)
    requires IsTimeline(marks, ordered, outgoing) && k < p < |marks| && marks[p].Received? && marks[k].Sent?
    ensures marks[k].o in outgoing && marks[k].o.end < marks[p].e.order && marks[k].o.timestamp <= marks[p].e.timestamp
  {
    assert marks[p] in marks && marks[k] in marks && OrderOf(marks[k]) < OrderOf(marks[p]);
    hide IsTimeline;
    var group :| PartsOf(ordered, marks[k].o, group, claimed);
    TimestampTestExcludesNone(ordered, marks[k].o, group, marks[p].e);
  }

  lemma LatestIsTop(marks: seq<Mark>, p: nat, ordered: seq<Event>, outgoing: seq<Outreach>, best: Outreach) returns (i: nat)
    requires IsTimeline(marks, ordered, outgoing) && p < |marks| && best in outgoing && best.end < OrderOf(marks[p])
    ensures i < p && marks[i] == Sent(best)
    ensures forall k: nat | i < k < p && marks[k].Sent? :: marks[k].o.end > best.end
  {
    assert Sent(best) in marks;
    i :| i < |marks| && marks[i] == Sent(best);
    RisingMeansDistinct(marks, i, p);
    forall k: nat | i < k < p && marks[k].Sent? ensures marks[k].o.end > best.end {
      assert OrderOf(marks[i]) < OrderOf(marks[k]);
    }
  }

  // The latest eligible outreach is the one the rule gives the message to.
  lemma ScanStep(marks: seq<Mark>, p: nat, ordered: seq<Event>, outgoing: seq<Outreach>, claimed: set<string>,
                 answers: map<EventId, Event>, best: Option<Outreach>)
    requires Sorted(ordered) && OrderSound(ordered, claimed) && PartsSound(ordered, outgoing, claimed)
    requires IsTimeline(marks, ordered, outgoing) && p < |marks| && marks[p].Received? && ScanInv(marks, p, answers)
    requires best.None? ==> forall o | o in outgoing :: !Eligible(o, answers.Keys, marks[p].e)
    requires best.Some? ==> best.value in outgoing && Eligible(best.value, answers.Keys, marks[p].e)
    requires best.Some? ==>
               forall o | o in outgoing && Eligible(o, answers.Keys, marks[p].e) :: o.end <= best.value.end
    ensures best.None? ==> ScanInv(marks, p + 1, answers)
    ensures best.Some? ==> ScanInv(marks, p + 1, answers[best.value.target := marks[p].e])
    ensures best.Some? ==> exists i: nat :: Answered(marks, i, p)
  {
    var e := marks[p].e;
    assert DistinctMarks(marks) by { assert IsTimeline(marks, ordered, outgoing); }
    hide Sorted, OrderSound, PartsSound, IsTimeline, ScanInv, Answered, DistinctMarks;
    forall k: nat | k < p && marks[k].Sent? && marks[k].o.target !in answers
      ensures marks[k].o in outgoing && Eligible(marks[k].o, answers.Keys, e)
    {
      OpenIsEligible(marks, p, ordered, outgoing, claimed, k);
    }
    if best.None? {
      ScanAnswersNone(marks, p, answers);
    } else {
      var i := LatestIsTop(marks, p, ordered, outgoing, best.value);
      ScanAnswers(marks, p, i, answers);
    }
  }
}

/**
 Relaying native messages into Matrix rooms. A message is sent component by component under
 transaction ids derived from it, so that an attempt can be repeated after any failure.
 */
module InboundRelay {
  import opened Numerals
  import opened Wrappers

  type ChatId = string
  type MsgId = string
  type RoomId = string
  type EventId = nat

  datatype Component = AttachmentPart(key: string) | TextPart

  // A transaction id: the hash of these three, which collisions aside is these three.
  datatype Txn = Txn(room: RoomId, msg: MsgId, component: Component)

  // What the checks say of an attachment's path.
  datatype Check = InvalidPath | ForbiddenPath | Unavailable | Readable

  datatype Attachment = Attachment(id: string, check: Check)

  datatype Message = Message(id: MsgId, attachments: seq<Attachment>, text: string)

  datatype Receipt = Confirmed(event: EventId) | RefusedPart

  // How one attempt to send goes: it succeeds; it fails or the process dies, with the
  // request carried out by the homeserver or not.
  datatype Fate = Succeeds | Fails(applied: bool) | Dies(applied: bool)

  // ------------------------------------------------------------------ components

  // The engine's id when there is one, else the place in the list.
  function KeyOf(a: Attachment, index: nat): string {
    if a.id != "" then a.id else Digits(index)
  }

  function ComponentAt(m: Message, k: nat): Component
    requires k < |m.attachments|
  {
    AttachmentPart(KeyOf(m.attachments[k], k))
  }

  ghost predicate IsComponent(m: Message, c: Component) {
    (c.TextPart? && m.text != "") || exists k: nat :: k < |m.attachments| && c == ComponentAt(m, k)
  }

  ghost predicate Barred(m: Message, c: Component) {
    exists k: nat :: k < |m.attachments| && c == ComponentAt(m, k)
                     && (m.attachments[k].check.InvalidPath? || m.attachments[k].check.ForbiddenPath?)
  }

  // Two of a message's attachments, the first at place j: their ids are the same, or one has
  // none and its place is the other's id.
  predicate SharesKey(x: string, j: nat, y: string, k: nat) {
    (x != "" && x == y) || (x == "" && y == Digits(j)) || (y == "" && x == Digits(k))
  }

  // That is exactly when they are one component.
  lemma SharesKeyIff(m: Message, j: nat, k: nat)
    requires j < k < |m.attachments|
    ensures ComponentAt(m, j) == ComponentAt(m, k) <==> SharesKey(m.attachments[j].id, j, m.attachments[k].id, k)
  {
    if Digits(j) == Digits(k) {
      DigitsInjective(j, k);
    }
  }

  predicate FirstUse(m: Message, k: nat)
    requires k < |m.attachments|
  {
    forall j: nat | j < k :: ComponentAt(m, j) != ComponentAt(m, k)
  }

  // What the first n attachments come to in a room that has none of them: only the first of
  // a component is sent.
  function AttachmentPosts(room: RoomId, m: Message, n: nat): seq<Txn>
    requires n <= |m.attachments|
  {
    if n == 0 then []
    else
      AttachmentPosts(room, m, n - 1)
      + (if m.attachments[n - 1].check.Readable? && FirstUse(m, n - 1) then [Txn(room, m.id, ComponentAt(m, n - 1))]
         else [])
  }

  function Posts(room: RoomId, m: Message): seq<Txn> {
    AttachmentPosts(room, m, |m.attachments|) + (if m.text != "" then [Txn(room, m.id, TextPart)] else [])
  }

  predicate Distinct(m: Message, n: nat)
    requires n <= |m.attachments|
  {
    forall j: nat, k: nat | j < k < n :: !SharesKey(m.attachments[j].id, j, m.attachments[k].id, k)
  }

  lemma {:induction false} PostsCount(room: RoomId, m: Message, n: nat)
    requires n <= |m.attachments| && forall a | a in m.attachments :: a.check.Readable?
    ensures |AttachmentPosts(room, m, n)| <= n
    ensures |AttachmentPosts(room, m, n)| == n <==> Distinct(m, n)
  {
    if n > 0 {
      PostsCount(room, m, n - 1);
      assert m.attachments[n - 1] in m.attachments;
      forall j: nat | j < n - 1
        ensures ComponentAt(m, j) == ComponentAt(m, n - 1)
                <==> SharesKey(m.attachments[j].id, j, m.attachments[n - 1].id, n - 1)
      {
        SharesKeyIff(m, j, n - 1);
      }
      hide SharesKey, KeyOf, Digits;
    }
  }

  // Every readable attachment has a post of its own if and only if no two share a key.
  lemma EachIsPostedIff(room: RoomId, m: Message)
    requires forall a | a in m.attachments :: a.check.Readable?
    ensures |Posts(room, m)| == |m.attachments| + (if m.text != "" then 1 else 0) <==> Distinct(m, |m.attachments|)
  {
    PostsCount(room, m, |m.attachments|);
  }

  // ------------------------------------------------------------------ the homeserver

  // Events by transaction id, and every event ever put in a room.
  datatype Server = Server(byTxn: map<Txn, EventId>, posted: seq<Txn>)

  // A request under a transaction id already used is answered with that event again.
  function Put(server: Server, txn: Txn): Server {
    if txn in server.byTxn then server
    else Server(server.byTxn[txn := |server.posted|], server.posted + [txn])
  }

  // Of this message the room has exactly the components of its first k attachments, and
  // since `before` it was sent what those come to.
  ghost predicate OnTrack(keys: set<Txn>, server: Server, before: seq<Txn>, room: RoomId, m: Message, k: nat)
    requires k <= |m.attachments|
  {
    && server.posted == before + AttachmentPosts(room, m, k)
    && (forall t: Txn | t.room == room && t.msg == m.id ::
          && (t in keys <==> exists j: nat :: j < k && ComponentAt(m, j) == t.component)
          && (t in server.byTxn ==> t in keys))
  }

  // The next attachment: it is passed over if its component is there, is refused, or is sent.
  lemma TrackNext(keys: set<Txn>, server: Server, before: seq<Txn>, room: RoomId, m: Message, k: nat)
    requires k < |m.attachments| && OnTrack(keys, server, before, room, m, k)
    ensures var t := Txn(room, m.id, ComponentAt(m, k));
      && (t in keys ==> OnTrack(keys, server, before, room, m, k + 1))
      && (t !in keys ==>
            if m.attachments[k].check.Readable? then OnTrack(keys + {t}, Put(server, t), before, room, m, k + 1)
            else OnTrack(keys + {t}, server, before, room, m, k + 1))
  {
    hide KeyOf;
    var t := Txn(room, m.id, ComponentAt(m, k));
    assert t in keys <==> !FirstUse(m, k);
    assert AttachmentPosts(room, m, k + 1)
        == AttachmentPosts(room, m, k) + (if m.attachments[k].check.Readable? && FirstUse(m, k) then [t] else []);
    hide AttachmentPosts;
  }

  ghost predicate ServerInv(server: Server) {
    && (forall i, j | 0 <= i < j < |server.posted| :: server.posted[i] != server.posted[j])
    && (forall t | t in server.byTxn :: server.byTxn[t] < |server.posted| && server.posted[server.byTxn[t]] == t)
    && (forall i | 0 <= i < |server.posted| :: server.posted[i] in server.byTxn)
  }

  lemma PutKeepsServer(server: Server, txn: Txn)
    requires ServerInv(server)
    ensures ServerInv(Put(server, txn)) && txn in Put(server, txn).byTxn
    ensures forall t | t in server.byTxn :: t in Put(server, txn).byTxn && Put(server, txn).byTxn[t] == server.byTxn[t]
  {
    if txn !in server.byTxn {
      forall i | 0 <= i < |server.posted| ensures server.posted[i] != txn {
        assert server.posted[i] in server.byTxn;
      }
    }
  }

  lemma TrackedAttachments(keys: set<Txn>, server: Server, before: seq<Txn>, room: RoomId, m: Message)
    requires OnTrack(keys, server, before, room, m, |m.attachments|)
    ensures server.posted == before + AttachmentPosts(room, m, |m.attachments|)
    ensures Txn(room, m.id, TextPart) !in keys && Txn(room, m.id, TextPart) !in server.byTxn
  {}

  // ------------------------------------------------------------------ the daemon

  datatype Source = Source(chat: ChatId, msg: MsgId)

  // How a message was dealt with: it was the daemon's own, or its components went to a room.
  datatype Handled = OwnEcho | Relayed(room: RoomId, message: Message)

  datatype Ending = Done | Incomplete | Died

  // What the tables say of where a message came from: its id is the engine's for an event
  // that was sent, or its text is in the chat's ledger of sent ones.
  datatype Origin = Origin(fromMe: bool, mapped: bool, inLedger: bool)

  // The daemon sent it itself.
  predicate IsEcho(m: Message, origin: Origin) {
    origin.fromMe && (origin.mapped || (m.text != "" && origin.inLedger))
  }

  // ------------------------------------------------------------------ what each step comes to

  datatype Progress = Progress(components: map<Txn, Receipt>, server: Server, ending: Ending)

  // A part that is sent has a receipt exactly if its request was answered.
  function AfterSend(components: map<Txn, Receipt>, server: Server, t: Txn, fate: Fate): Progress {
    match fate
    case Succeeds =>
      var now := Put(server, t);
      Progress(components[t := Confirmed(now.byTxn[t])], now, Done)
    case Fails(applied) => Progress(components, if applied then Put(server, t) else server, Incomplete)
    case Dies(applied) => Progress(components, if applied then Put(server, t) else server, Died)
  }

  function AfterAttachment(components: map<Txn, Receipt>, server: Server, room: RoomId, m: Message, k: nat,
                           fate: Fate): Progress
    requires k < |m.attachments|
  {
    var t := Txn(room, m.id, ComponentAt(m, k));
    if t in components then Progress(components, server, Done)
    else
      match m.attachments[k].check
      case Readable => AfterSend(components, server, t, fate)
      case Unavailable => Progress(components, server, Incomplete)
      case _ => Progress(components[t := RefusedPart], server, Done)
  }

  // Every part is tried unless the process dies; one that is not dealt with leaves the
  // message incomplete.
  function Then(p: Progress, q: Progress): Progress {
    if p.ending.Died? then p else Progress(q.components, q.server, if q.ending.Done? then p.ending else q.ending)
  }

  function AfterAttachments(components: map<Txn, Receipt>, server: Server, room: RoomId, m: Message, fates: seq<Fate>,
                            n: nat): Progress
    requires n <= |m.attachments| <= |fates|
  {
    if n == 0 then Progress(components, server, Done)
    else
      var p := AfterAttachments(components, server, room, m, fates, n - 1);
      Then(p, AfterAttachment(p.components, p.server, room, m, n - 1, fates[n - 1]))
  }

  function AfterText(components: map<Txn, Receipt>, server: Server, room: RoomId, m: Message, fate: Fate): Progress {
    var t := Txn(room, m.id, TextPart);
    if m.text == "" || t in components then Progress(components, server, Done)
    else AfterSend(components, server, t, fate)
  }

  function AfterMessage(components: map<Txn, Receipt>, server: Server, room: RoomId, m: Message,
                        fates: seq<Fate>): Progress
    requires |fates| == |m.attachments| + 1
  {
    var p := AfterAttachments(components, server, room, m, fates, |m.attachments|);
    Then(p, AfterText(p.components, p.server, room, m, fates[|m.attachments|]))
  }

  // The tables and the homeserver.
  datatype Book = Book(components: map<Txn, Receipt>, server: Server, seen: set<Source>, pending: set<Source>)

  // Edits and reactions are reconciled last.
  function Closed(b: Book, x: Source, reconciled: bool): (Book, Ending) {
    if reconciled then (b.(pending := b.pending - {x}), Done) else (b.(pending := b.pending + {x}), Incomplete)
  }

  function Imported(b: Book, x: Source, m: Message, origin: Origin, room: Option<RoomId>, fates: seq<Fate>,
                    reconciled: bool): (Book, Ending)
    requires |fates| == |m.attachments| + 1
  {
    if x in b.seen then Closed(b, x, reconciled)
    else if IsEcho(m, origin) then Closed(b.(seen := b.seen + {x}), x, reconciled)
    else if room.None? then (b.(pending := b.pending + {x}), Incomplete)
    else
      var p := AfterMessage(b.components, b.server, room.value, m, fates);
      var sent := b.(components := p.components, server := p.server);
      match p.ending
      case Done => Closed(sent.(seen := sent.seen + {x}), x, reconciled)
      case Incomplete => (sent.(pending := sent.pending + {x}), Incomplete)
      case Died => (sent, Died)
  }

  function Backfilled(b: Book, x: Source, room: RoomId, m: Message, fates: seq<Fate>, reconciled: bool): (Book, Ending)
    requires |fates| == |m.attachments| + 1
  {
    var p := AfterMessage(b.components, b.server, room, m, fates);
    var sent := b.(components := p.components, server := p.server);
    if !p.ending.Done? then (sent, p.ending)
    else if !reconciled then (sent, Incomplete)
    else (sent.(seen := sent.seen + {x}, pending := sent.pending - {x}), Done)
  }

  // A pass over messages: how many were worked on, whether all went well, and whether
  // the process died in it.
  datatype Pass = Pass(book: Book, worked: nat, complete: bool, died: bool)

  // A message not seen yet becomes pending, and is relayed unless the cap is reached.
  function BackfillTurn(p: Pass, x: Source, room: RoomId, m: Message, fates: seq<Fate>, reconciled: bool, cap: nat): Pass
    requires |fates| == |m.attachments| + 1
  {
    if p.died || x in p.book.seen then p
    else
      var marked := p.book.(pending := p.book.pending + {x});
      if p.worked >= cap then Pass(marked, p.worked, false, false)
      else
        var (after, ending) := Backfilled(marked, x, room, m, fates, reconciled);
        Pass(after, p.worked + 1, p.complete && !ending.Incomplete?, ending.Died?)
  }

  function BackfillPass(b: Book, chat: ChatId, room: RoomId, messages: seq<Message>, fates: seq<seq<Fate>>,
                        reconciled: seq<bool>, cap: nat): Pass
    requires |messages| == |fates| == |reconciled|
    requires forall i | 0 <= i < |messages| :: |fates[i]| == |messages[i].attachments| + 1
  {
    if messages == [] then Pass(b, 0, true, false)
    else
      var n := |messages| - 1;
      BackfillTurn(BackfillPass(b, chat, room, messages[..n], fates[..n], reconciled[..n], cap),
                   Source(chat, messages[n].id), room, messages[n], fates[n], reconciled[n], cap)
  }

  // One message offered to a poll, with what is known of it.
  datatype Offer = Offer(m: Message, origin: Origin, fates: seq<Fate>, reconciled: bool, due: bool) {
    predicate Fits() {
      |fates| == |m.attachments| + 1
    }
  }

  // What was not seen or was waiting when the poll began is work, and is left if it is not
  // due or the budget is spent.
  function DeltaTurn(p: Pass, work: bool, x: Source, room: Option<RoomId>, o: Offer, budget: nat): Pass
    requires o.Fits()
  {
    if p.died || (work && (p.worked >= budget || !o.due)) then p
    else
      var (after, ending) := Imported(p.book, x, o.m, o.origin, room, o.fates, o.reconciled);
      Pass(after, if work then p.worked + 1 else p.worked, true, ending.Died?)
  }

  function DeltaPass(b: Book, work: set<Source>, chat: ChatId, room: Option<RoomId>, offers: seq<Offer>,
                     budget: nat): Pass
    requires forall o | o in offers :: o.Fits()
  {
    if offers == [] then Pass(b, 0, true, false)
    else
      var o := offers[|offers| - 1];
      var x := Source(chat, o.m.id);
      DeltaTurn(DeltaPass(b, work, chat, room, offers[..|offers| - 1], budget), x in work, x, room, o, budget)
  }

  // All of the message can be read and every request is answered.
  predicate CanBeWhole(m: Message, fates: seq<Fate>) {
    (forall f | f in fates :: f.Succeeds?) && forall a | a in m.attachments :: !a.check.Unavailable?
  }

  lemma {:induction false} WholeAttachments(components: map<Txn, Receipt>, server: Server, room: RoomId, m: Message,
                                            fates: seq<Fate>, n: nat)
    requires n <= |m.attachments| <= |fates| && CanBeWhole(m, fates)
    ensures AfterAttachments(components, server, room, m, fates, n).ending.Done?
  {
    if n > 0 {
      WholeAttachments(components, server, room, m, fates, n - 1);
      assert fates[n - 1] in fates && m.attachments[n - 1] in m.attachments;
    }
  }

  lemma WholeMessage(components: map<Txn, Receipt>, server: Server, room: RoomId, m: Message, fates: seq<Fate>)
    requires |fates| == |m.attachments| + 1 && CanBeWhole(m, fates)
    ensures AfterMessage(components, server, room, m, fates).ending.Done?
  {
    WholeAttachments(components, server, room, m, fates, |m.attachments|);
    assert fates[|m.attachments|] in fates;
  }

  lemma BackfillTurnSees(p: Pass, x: Source, room: RoomId, m: Message, fates: seq<Fate>, reconciled: bool, cap: nat)
    requires |fates| == |m.attachments| + 1
    ensures var q := BackfillTurn(p, x, room, m, fates, reconciled, cap);
      && (q.book.seen == p.book.seen || (q.book.seen == p.book.seen + {x} && q.worked == p.worked + 1))
      && p.worked <= q.worked <= p.worked + 1 && (p.worked <= cap ==> q.worked <= cap)
      && (CanBeWhole(m, fates) && reconciled && p.worked < cap && !p.died ==>
            !q.died && q.complete == p.complete && x in q.book.seen)
  {
    if CanBeWhole(m, fates) {
      WholeMessage(p.book.components, p.book.server, room, m, fates);
    }
    hide AfterMessage, CanBeWhole;
  }

  lemma SeenOneMore(before: set<Source>, was: set<Source>, now: set<Source>, x: Source)
    requires before <= was && (now == was || now == was + {x})
    ensures |now - before| <= |was - before| + (if now == was then 0 else 1)
  {
    assert now - before == was - before || now - before == was - before + {x};
  }

  // No more messages are relayed than the cap allows, and if all goes well all are.
  lemma {:induction false} BackfillBound(b: Book, chat: ChatId, room: RoomId, messages: seq<Message>,
                                         fates: seq<seq<Fate>>, reconciled: seq<bool>, cap: nat)
    requires |messages| == |fates| == |reconciled|
    requires forall i | 0 <= i < |messages| :: |fates[i]| == |messages[i].attachments| + 1
    ensures var p := BackfillPass(b, chat, room, messages, fates, reconciled, cap);
      && b.seen <= p.book.seen && |p.book.seen - b.seen| <= p.worked <= cap && p.worked <= |messages|
      && (|messages| <= cap && (forall i | 0 <= i < |messages| :: CanBeWhole(messages[i], fates[i]) && reconciled[i]) ==>
            p.complete && !p.died && forall m | m in messages :: Source(chat, m.id) in p.book.seen)
  {
    if messages != [] {
      var n := |messages| - 1;
      var m, front := messages[n], messages[..n];
      assert messages == front + [m];
      BackfillBound(b, chat, room, front, fates[..n], reconciled[..n], cap);
      var p := BackfillPass(b, chat, room, front, fates[..n], reconciled[..n], cap);
      BackfillTurnSees(p, Source(chat, m.id), room, m, fates[n], reconciled[n], cap);
      var q := BackfillTurn(p, Source(chat, m.id), room, m, fates[n], reconciled[n], cap);
      hide BackfillTurn, CanBeWhole;
      SeenOneMore(b.seen, p.book.seen, q.book.seen, Source(chat, m.id));
    }
  }

  // Each message is seen or pending, and what left the pending table is seen.
  lemma {:induction false} BackfillCovers(b: Book, chat: ChatId, room: RoomId, messages: seq<Message>,
                                          fates: seq<seq<Fate>>, reconciled: seq<bool>, cap: nat)
    requires |messages| == |fates| == |reconciled|
    requires forall i | 0 <= i < |messages| :: |fates[i]| == |messages[i].attachments| + 1
    ensures var p := BackfillPass(b, chat, room, messages, fates, reconciled, cap);
      && b.seen <= p.book.seen && (forall x | x in b.pending - p.book.pending :: x in p.book.seen)
      && (p.complete && !p.died ==> forall m | m in messages :: Source(chat, m.id) in p.book.seen)
      && (!p.died ==> forall m | m in messages :: Source(chat, m.id) in p.book.seen + p.book.pending)
  {
    if messages != [] {
      var n := |messages| - 1;
      var m, front := messages[n], messages[..n];
      assert messages == front + [m];
      BackfillCovers(b, chat, room, front, fates[..n], reconciled[..n], cap);
      var p := BackfillPass(b, chat, room, front, fates[..n], reconciled[..n], cap);
      BackfillTurnCovers(p, Source(chat, m.id), room, m, fates[n], reconciled[n], cap);
      hide BackfillTurn;
    }
  }

  lemma BackfillTurnCovers(p: Pass, x: Source, room: RoomId, m: Message, fates: seq<Fate>, reconciled: bool, cap: nat)
    requires |fates| == |m.attachments| + 1
    ensures var q := BackfillTurn(p, x, room, m, fates, reconciled, cap);
      && p.book.seen <= q.book.seen && p.book.pending - q.book.pending <= q.book.seen
      && (q.complete && !q.died ==> p.complete && !p.died && x in q.book.seen)
      && (!q.died ==> !p.died && x in q.book.seen + q.book.pending)
  {
    hide AfterMessage;
  }

  lemma DeltaTurnSees(p: Pass, work: bool, x: Source, room: Option<RoomId>, o: Offer, budget: nat)
    requires o.Fits() && (work || x in p.book.seen)
    ensures var q := DeltaTurn(p, work, x, room, o, budget);
      && (q.book.seen == p.book.seen || (q.book.seen == p.book.seen + {x} && q.worked == p.worked + 1))
      && p.worked <= q.worked && (p.worked <= budget ==> q.worked <= budget)
  {
    hide AfterMessage;
  }

  // No more messages are newly seen in a poll than its budget.
  lemma {:induction false} DeltaBound(b: Book, work: set<Source>, chat: ChatId, room: Option<RoomId>,
                                      offers: seq<Offer>, budget: nat)
    requires forall o | o in offers :: o.Fits() && Source(chat, o.m.id) in work + b.seen
    ensures var p := DeltaPass(b, work, chat, room, offers, budget);
      b.seen <= p.book.seen && |p.book.seen - b.seen| <= p.worked <= budget
  {
    if offers != [] {
      var o, front := offers[|offers| - 1], offers[..|offers| - 1];
      var x := Source(chat, o.m.id);
      DeltaBound(b, work, chat, room, front, budget);
      var p := DeltaPass(b, work, chat, room, front, budget);
      DeltaTurnSees(p, x in work, x, room, o, budget);
      var q := DeltaTurn(p, x in work, x, room, o, budget);
      hide DeltaTurn;
      SeenOneMore(b.seen, p.book.seen, q.book.seen, x);
    }
  }

  // What is seen or pending is so in the end.
  lemma {:induction false} DeltaCovers(b: Book, work: set<Source>, chat: ChatId, room: Option<RoomId>,
                                       offers: seq<Offer>, budget: nat)
    requires forall o | o in offers :: o.Fits()
    ensures var p := DeltaPass(b, work, chat, room, offers, budget);
      b.seen <= p.book.seen && b.pending <= p.book.seen + p.book.pending
  {
    if offers != [] {
      var o, front := offers[|offers| - 1], offers[..|offers| - 1];
      DeltaCovers(b, work, chat, room, front, budget);
      var p, x := DeltaPass(b, work, chat, room, front, budget), Source(chat, o.m.id);
      DeltaTurnCovers(p, x in work, x, room, o, budget);
      hide DeltaTurn;
    }
  }

  lemma DeltaTurnCovers(p: Pass, work: bool, x: Source, room: Option<RoomId>, o: Offer, budget: nat)
    requires o.Fits()
    ensures var q := DeltaTurn(p, work, x, room, o, budget);
      p.book.seen <= q.book.seen && p.book.pending <= q.book.seen + q.book.pending
  {
    hide AfterMessage;
  }

  // All of an offer is there, and its room.
  predicate CanBeSeen(room: Option<RoomId>, o: Offer) {
    room.Some? && CanBeWhole(o.m, o.fates) && o.reconciled && o.due
  }

  lemma DeltaTurnTakes(p: Pass, work: bool, x: Source, room: Option<RoomId>, o: Offer, budget: nat)
    requires o.Fits() && !p.died && p.worked < budget && CanBeSeen(room, o)
    ensures var q := DeltaTurn(p, work, x, room, o, budget);
      && !q.died && q.worked <= p.worked + 1
      && q.book.seen == p.book.seen + {x} && q.book.pending == p.book.pending - {x}
  {
    WholeMessage(p.book.components, p.book.server, room.value, o.m, o.fates);
    hide AfterMessage, CanBeWhole;
  }

  // If all goes well and the budget is enough, all that was offered is seen and not pending.
  lemma {:induction false} DeltaCompletes(b: Book, work: set<Source>, chat: ChatId, room: Option<RoomId>,
                                          offers: seq<Offer>, budget: nat)
    requires forall o | o in offers :: o.Fits()
    ensures var p := DeltaPass(b, work, chat, room, offers, budget);
      |offers| <= budget && (forall o | o in offers :: CanBeSeen(room, o)) ==>
        && !p.died && p.worked <= |offers|
        && forall o | o in offers :: Source(chat, o.m.id) in p.book.seen && Source(chat, o.m.id) !in p.book.pending
  {
    if offers != [] && |offers| <= budget && forall o | o in offers :: CanBeSeen(room, o) {
      var o, front := offers[|offers| - 1], offers[..|offers| - 1];
      assert offers == front + [o];
      DeltaCompletes(b, work, chat, room, front, budget);
      var p, x := DeltaPass(b, work, chat, room, front, budget), Source(chat, o.m.id);
      DeltaTurnTakes(p, x in work, x, room, o, budget);
      hide DeltaTurn, CanBeSeen;
    }
  }

  // What is not due is left as it is.
  lemma {:induction false} NotDueWaits(b: Book, work: set<Source>, chat: ChatId, room: Option<RoomId>,
                                       offers: seq<Offer>, budget: nat)
    requires forall o | o in offers :: o.Fits() && Source(chat, o.m.id) in work && !o.due
    ensures DeltaPass(b, work, chat, room, offers, budget) == Pass(b, 0, true, false)
  {
    if offers != [] {
      NotDueWaits(b, work, chat, room, offers[..|offers| - 1], budget);
    }
  }

  lemma NoBackfill(b: Book, chat: ChatId, room: RoomId, messages: seq<Message>, fates: seq<seq<Fate>>,
                   reconciled: seq<bool>, cap: nat)
    requires |messages| == |fates| == |reconciled|
    ensures BackfillPass(b, chat, room, messages[..0], fates[..0], reconciled[..0], cap) == Pass(b, 0, true, false)
  {}

  lemma NextBackfill(b: Book, chat: ChatId, room: RoomId, messages: seq<Message>, fates: seq<seq<Fate>>,
                     reconciled: seq<bool>, cap: nat, i: nat)
    requires i < |messages| == |fates| == |reconciled|
    requires forall j | 0 <= j < |messages| :: |fates[j]| == |messages[j].attachments| + 1
    ensures BackfillPass(b, chat, room, messages[..i + 1], fates[..i + 1], reconciled[..i + 1], cap)
            == BackfillTurn(BackfillPass(b, chat, room, messages[..i], fates[..i], reconciled[..i], cap),
                            Source(chat, messages[i].id), room, messages[i], fates[i], reconciled[i], cap)
  {
    assert messages[..i + 1][..i] == messages[..i] && fates[..i + 1][..i] == fates[..i];
    assert reconciled[..i + 1][..i] == reconciled[..i];
  }

  // A pass ends with the process.
  lemma {:induction false} DeadBackfill(b: Book, chat: ChatId, room: RoomId, messages: seq<Message>,
                                        fates: seq<seq<Fate>>, reconciled: seq<bool>, cap: nat, k: nat)
    requires k <= |messages| == |fates| == |reconciled|
    requires forall i | 0 <= i < |messages| :: |fates[i]| == |messages[i].attachments| + 1
    requires BackfillPass(b, chat, room, messages[..k], fates[..k], reconciled[..k], cap).died
    ensures BackfillPass(b, chat, room, messages, fates, reconciled, cap)
            == BackfillPass(b, chat, room, messages[..k], fates[..k], reconciled[..k], cap)
  {
    var n := |messages| - 1;
    if k <= n {
      assert messages[..n][..k] == messages[..k] && fates[..n][..k] == fates[..k];
      assert reconciled[..n][..k] == reconciled[..k];
      DeadBackfill(b, chat, room, messages[..n], fates[..n], reconciled[..n], cap, k);
    } else {
      assert messages[..k] == messages && fates[..k] == fates && reconciled[..k] == reconciled;
    }
  }

  lemma {:induction false} DeadDelta(b: Book, work: set<Source>, chat: ChatId, room: Option<RoomId>,
                                     offers: seq<Offer>, budget: nat, k: nat)
    requires k <= |offers| && forall o | o in offers :: o.Fits()
    requires DeltaPass(b, work, chat, room, offers[..k], budget).died
    ensures DeltaPass(b, work, chat, room, offers, budget) == DeltaPass(b, work, chat, room, offers[..k], budget)
  {
    var n := |offers| - 1;
    if k <= n {
      assert offers[..n][..k] == offers[..k];
      DeadDelta(b, work, chat, room, offers[..n], budget, k);
    } else {
      assert offers[..k] == offers;
    }
  }

  ghost predicate HasAll(components: map<Txn, Receipt>, room: RoomId, m: Message) {
    forall c: Component | IsComponent(m, c) :: Txn(room, m.id, c) in components
  }

  lemma HasAllStill(before: map<Txn, Receipt>, after: map<Txn, Receipt>, room: RoomId, m: Message)
    requires HasAll(before, room, m) && forall t | t in before :: t in after
    ensures HasAll(after, room, m)
  {}

  class Relay {
    var components: map<Txn, Receipt>
    var seen: set<Source>
    var pending: set<Source>
    var server: Server
    ghost var handled: map<Source, Handled>

    // Every component has been received by the room or refused for good.
    ghost predicate Settled(room: RoomId, m: Message)
      reads this`components
    {
      HasAll(components, room, m)
    }

    // Receipts are of events that are there, and what counts as seen has been dealt with.
    ghost predicate Valid()
      reads this
    {
      && ServerInv(server)
      && (forall t | t in components && components[t].Confirmed? ::
            t in server.byTxn && server.byTxn[t] == components[t].event)
      && (forall x | x in seen :: x in handled)
      && (forall x | x in handled && handled[x].Relayed? :: Settled(handled[x].room, handled[x].message)
                                                            && handled[x].message.id == x.msg)
    }

    function Now(): Book
      reads this
    {
      Book(components, server, seen, pending)
    }

    // What no attempt, failure or restart undoes.
    twostate predicate Grows()
      reads this
    {
      && (forall t | t in old(components) :: t in components && components[t] == old(components)[t])
      && old(seen) <= seen && old(server).posted <= server.posted
      && (forall x | x in old(handled) :: x in handled && handled[x] == old(handled)[x])
    }

    constructor ()
      ensures Valid() && components == map[] && seen == {} && pending == {} && server == Server(map[], [])
    {
      components, seen, pending, server, handled := map[], {}, {}, Server(map[], []), map[];
    }

    // One component that has no receipt yet.
    method Send(txn: Txn, fate: Fate) returns (ending: Ending)
      requires Valid() && txn !in components
      modifies this`components, this`server
      ensures Valid() && Grows()
      ensures ending.Done? ==> txn in components && components[txn].Confirmed? && server == Put(old(server), txn)
      ensures server.posted == old(server).posted || server.posted == old(server).posted + [txn]
      ensures components.Keys == old(components).Keys + (if ending.Done? then {txn} else {})
      ensures (ending == Done <==> fate.Succeeds?) && (ending == Died <==> fate.Dies?)
      ensures server == if fate.Succeeds? || fate.applied then Put(old(server), txn) else old(server)
      ensures Progress(components, server, ending) == AfterSend(old(components), old(server), txn, fate)
    {
      PutKeepsServer(server, txn);
      match fate {
        case Fails(applied) =>
          if applied {
            server := Put(server, txn);
          }
          return Incomplete;
        case Dies(applied) =>
          if applied {
            server := Put(server, txn);
          }
          return Died;
        case Succeeds =>
          server := Put(server, txn);
          components := components[txn := Confirmed(server.byTxn[txn])];
          return Done;
      }
    }

    method Refuse(txn: Txn)
      requires Valid() && txn !in components
      modifies this`components
      ensures Valid() && Grows() && components == old(components)[txn := RefusedPart]
    {
      components := components[txn := RefusedPart];
    }

    // Only this message's components are touched, and only a path that may not be read is
    // refused.
    twostate predicate Touches(room: RoomId, m: Message)
      reads this
    {
      && (forall t | t in components && t !in old(components) ::
            t.room == room && t.msg == m.id && IsComponent(m, t.component)
            && (components[t].RefusedPart? ==> Barred(m, t.component)))
      && (forall i | |old(server).posted| <= i < |server.posted| ::
            server.posted[i].room == room && server.posted[i].msg == m.id && IsComponent(m, server.posted[i].component))
    }

    // Nothing of this message has got to the room yet.
    ghost predicate Unsent(room: RoomId, m: Message)
      reads this
    {
      OnTrack(components.Keys, server, server.posted, room, m, 0)
    }

    // One attachment. Only a path that may not be read is refused.
    method RelayAttachment(room: RoomId, m: Message, k: nat, fate: Fate) returns (ending: Ending)
      requires Valid() && k < |m.attachments|
      modifies this`components, this`server
      ensures Valid() && Grows() && Touches(room, m)
      ensures var t, check := Txn(room, m.id, ComponentAt(m, k)), m.attachments[k].check;
        if t in old(components) then ending.Done? && components == old(components) && server == old(server)
        else if check.Readable? then
          && (ending == Done <==> fate.Succeeds?) && (ending == Died <==> fate.Dies?)
          && (ending.Done? ==> components.Keys == old(components).Keys + {t} && server == Put(old(server), t))
        else if check.Unavailable? then ending.Incomplete?
        else
          && ending.Done? && components == old(components)[t := RefusedPart] && server == old(server)
          && components.Keys == old(components).Keys + {t}
      ensures Progress(components, server, ending)
              == AfterAttachment(old(components), old(server), room, m, k, fate)
    {
      hide ServerInv, KeyOf;
      var txn := Txn(room, m.id, ComponentAt(m, k));
      ending := Done;
      if txn !in components {
        match m.attachments[k].check {
          case InvalidPath => Refuse(txn);
          case ForbiddenPath => Refuse(txn);
          case Unavailable => ending := Incomplete;
          case Readable => ending := Send(txn, fate);
        }
      }
    }

    // The text, if there is any.
    method RelayText(room: RoomId, m: Message, fate: Fate) returns (ending: Ending)
      requires Valid()
      modifies this`components, this`server
      ensures Valid() && Grows() && Touches(room, m)
      ensures var t := Txn(room, m.id, TextPart);
        if m.text == "" || t in old(components) then
          ending.Done? && components == old(components) && server == old(server)
        else
          && (ending == Done <==> fate.Succeeds?) && (ending == Died <==> fate.Dies?)
          && (ending.Done? ==> components.Keys == old(components).Keys + {t} && server == Put(old(server), t))
      ensures Progress(components, server, ending) == AfterText(old(components), old(server), room, m, fate)
    {
      hide ServerInv;
      ending := Done;
      if m.text != "" && Txn(room, m.id, TextPart) !in components {
        ending := Send(Txn(room, m.id, TextPart), fate);
      }
    }

    // The attachments in order, whatever became of those before.
    method RelayAttachments(room: RoomId, m: Message, fates: seq<Fate>) returns (ending: Ending)
      requires Valid() && |fates| == |m.attachments| + 1
      modifies this`components, this`server
      ensures Valid() && Grows() && Touches(room, m)
      ensures ending.Done? ==> forall j: nat | j < |m.attachments| :: Txn(room, m.id, ComponentAt(m, j)) in components
      ensures ending.Done? && old(Unsent(room, m)) ==>
                OnTrack(components.Keys, server, old(server).posted, room, m, |m.attachments|)
      ensures !ending.Done? ==>
                (exists f | f in fates :: !f.Succeeds?) || exists a | a in m.attachments :: a.check.Unavailable?
      ensures ending == Died ==> exists f | f in fates :: f.Dies?
      ensures Progress(components, server, ending)
              == AfterAttachments(old(components), old(server), room, m, fates, |m.attachments|)
    {
      hide ServerInv, OnTrack, KeyOf, IsComponent, Barred, AfterAttachment, AfterSend, Put;
      ghost var before, unsent := server.posted, Unsent(room, m);
      ending := Done;
      for k := 0 to |m.attachments|
        invariant Valid() && Grows() && Touches(room, m) && !ending.Died?
        invariant ending.Done? ==> forall j: nat | j < k :: Txn(room, m.id, ComponentAt(m, j)) in components
        invariant ending.Done? && unsent ==> OnTrack(components.Keys, server, before, room, m, k)
        invariant Progress(components, server, ending) ==
                  AfterAttachments(old(components), old(server), room, m, fates, k)
        invariant !ending.Done? ==>
          (exists f | f in fates :: !f.Succeeds?) || exists a | a in m.attachments :: a.check.Unavailable?
      {
        if ending.Done? && unsent {
          TrackNext(components.Keys, server, before, room, m, k);
        }
        assert fates[k] in fates && m.attachments[k] in m.attachments;
        var part := RelayAttachment(room, m, k, fates[k]);
        if part.Died? {
          DeadStays(old(components), old(server), room, m, fates, k + 1, |m.attachments|);
          return Died;
        }
        if part.Incomplete? {
          ending := Incomplete;
        }
      }
    }

    lemma {:induction false} DeadStays(components: map<Txn, Receipt>, server: Server, room: RoomId, m: Message,
                                       fates: seq<Fate>, k: nat, n: nat)
      requires k <= n <= |m.attachments| <= |fates|
      requires AfterAttachments(components, server, room, m, fates, k).ending.Died?
      ensures AfterAttachments(components, server, room, m, fates, n)
              == AfterAttachments(components, server, room, m, fates, k)
    {
      if k < n {
        DeadStays(components, server, room, m, fates, k, n - 1);
        hide AfterAttachment;
      }
    }

    // Every component without a receipt is tried, whatever became of those before it.
    method RelayMessage(room: RoomId, m: Message, fates: seq<Fate>) returns (ending: Ending)
      requires Valid() && |fates| == |m.attachments| + 1
      modifies this`components, this`server
      ensures Valid() && Grows() && Touches(room, m)
      ensures ending.Done? ==> Settled(room, m)
      ensures Progress(components, server, ending) == AfterMessage(old(components), old(server), room, m, fates)
      ensures ((forall f | f in fates :: f.Succeeds?) && forall a | a in m.attachments :: !a.check.Unavailable?) ==>
                ending.Done?
      ensures ending == Died ==> exists f | f in fates :: f.Dies?
      ensures ending.Done? && old(Unsent(room, m)) ==> server.posted == old(server).posted + Posts(room, m)
      // So each attachment gets there if and only if no two share a key.
      ensures ending.Done? && old(Unsent(room, m)) && (forall a | a in m.attachments :: a.check.Readable?) ==>
                (|server.posted| == |old(server).posted| + |m.attachments| + (if m.text != "" then 1 else 0)
                 <==> Distinct(m, |m.attachments|))
    {
      hide ServerInv, OnTrack, AttachmentPosts, Distinct, KeyOf, IsComponent, Barred, AfterAttachments, AfterText;
      ending := RelayAttachments(room, m, fates);
      if ending.Died? {
        return;
      }
      if ending.Done? && old(Unsent(room, m)) {
        TrackedAttachments(components.Keys, server, old(server).posted, room, m);
      }
      if forall a | a in m.attachments :: a.check.Readable? {
        EachIsPostedIff(room, m);
      }
      assert fates[|m.attachments|] in fates;
      var text := RelayText(room, m, fates[|m.attachments|]);
      if !text.Done? {
        ending := text;
      }
      if ending.Done? {
        SettledByParts(room, m);
      }
    }

    lemma SettledByParts(room: RoomId, m: Message)
      requires forall j: nat | j < |m.attachments| :: Txn(room, m.id, ComponentAt(m, j)) in components
      requires m.text != "" ==> Txn(room, m.id, TextPart) in components
      ensures Settled(room, m)
    {}

    // Dealt with: no longer pending, and never to be relayed again.
    method Complete(x: Source)
      requires Valid() && x in handled
      modifies this`seen, this`pending
      ensures Valid() && Grows() && seen == old(seen) + {x} && pending == old(pending) - {x}
    {
      seen := seen + {x};
      pending := pending - {x};
    }

    // A message the daemon sent itself needs no relay. The room may be out of reach.
    method DeliverInbound(chat: ChatId, m: Message, origin: Origin, room: Option<RoomId>, fates: seq<Fate>)
      returns (ending: Ending)
      requires Valid() && |fates| == |m.attachments| + 1 && Source(chat, m.id) !in seen
      modifies this`components, this`server, this`handled
      ensures Valid() && Grows()
      ensures ending.Done? ==>
                Source(chat, m.id) in handled && (IsEcho(m, origin) || (room.Some? && Settled(room.value, m)))
      // Its own are those of the engine's id, or of a text in the chat's ledger.
      ensures origin.fromMe && (origin.mapped || (m.text != "" && origin.inLedger)) ==>
                ending.Done? && server == old(server) && components == old(components)
      ensures !(origin.fromMe && (origin.mapped || (m.text != "" && origin.inLedger))) ==>
                (room.None? ==> ending.Incomplete?) && (ending.Done? ==> room.Some? && Settled(room.value, m))
      ensures !IsEcho(m, origin) && room.Some? ==>
                Progress(components, server, ending)
                == AfterMessage(old(components), old(server), room.value, m, fates)
      ensures !IsEcho(m, origin) && room.None? ==> components == old(components) && server == old(server)
      ensures ending == Died ==> exists f | f in fates :: f.Dies?
      ensures ending.Done? && Source(chat, m.id) !in old(handled) ==>
                (IsEcho(m, origin) || room.Some?)
                && handled[Source(chat, m.id)] == if IsEcho(m, origin) then OwnEcho else Relayed(room.value, m)
    {
      var x := Source(chat, m.id);
      if origin.fromMe && origin.mapped {
        Handle(x, OwnEcho);
        return Done;
      }
      if origin.fromMe && m.text != "" && origin.inLedger {
        Handle(x, OwnEcho);
        return Done;
      }
      if room.None? {
        return Incomplete;
      }
      ending := RelayMessage(room.value, m, fates);
      if ending.Done? {
        Handle(x, Relayed(room.value, m));
      }
    }

    ghost method Handle(x: Source, how: Handled)
      requires Valid() && (how.Relayed? ==> how.message.id == x.msg && Settled(how.room, how.message))
      modifies this`handled
      ensures Valid() && Grows() && x in handled
      ensures handled == if x in old(handled) then old(handled) else old(handled)[x := how]
    {
      if x !in handled {
        handled := handled[x := how];
      }
    }

    // One source message: delivered unless that is done, then its edits and reactions are
    // reconciled; whatever fails leaves it pending.
    method ImportMessage(chat: ChatId, m: Message, origin: Origin, room: Option<RoomId>, fates: seq<Fate>,
                         reconciled: bool)
      returns (ending: Ending)
      requires Valid() && |fates| == |m.attachments| + 1
      modifies this
      ensures Valid() && Grows()
      ensures ending.Done? ==> Source(chat, m.id) in seen && Source(chat, m.id) !in pending
      ensures ending.Done? && Source(chat, m.id) !in old(seen) ==>
                IsEcho(m, origin) || (room.Some? && Settled(room.value, m))
      ensures ending.Incomplete? ==> Source(chat, m.id) in pending
      ensures forall x | x in old(pending) - pending :: x == Source(chat, m.id) && x in seen
      ensures (Now(), ending) == Imported(old(Now()), Source(chat, m.id), m, origin, room, fates, reconciled)
      // What is seen, its own, or can be sent whole is seen from then on, and off the pending
      // table if the rest was reconciled; anything else is pending unless the process died.
      ensures var x := Source(chat, m.id);
        var echo := origin.fromMe && (origin.mapped || (m.text != "" && origin.inLedger));
        var whole := room.Some? && AfterMessage(old(components), old(server), room.value, m, fates).ending.Done?;
        && (seen == if x in old(seen) || echo || whole then old(seen) + {x} else old(seen))
        && (ending == Done <==> reconciled && (x in old(seen) || echo || whole))
        && (ending != Done ==> pending == if ending == Died then old(pending) else old(pending) + {x})
        && (ending == Died ==> exists f | f in fates :: f.Dies?)
    {
      var x := Source(chat, m.id);
      if x !in seen {
        var sent := DeliverInbound(chat, m, origin, room, fates);
        if sent.Died? {
          return Died;
        }
        if sent.Incomplete? {
          pending := pending + {x};
          return Incomplete;
        }
        seen := seen + {x};
      }
      if !reconciled {
        pending := pending + {x};
        return Incomplete;
      }
      assert seen + {x} == seen;
      Complete(x);
      return Done;
    }

    // A message of the history: relayed, whosever it is, and reconciled.
    method BackfillOne(chat: ChatId, room: RoomId, m: Message, fates: seq<Fate>, reconciled: bool)
      returns (ending: Ending)
      requires Valid() && |fates| == |m.attachments| + 1
      modifies this
      ensures Valid() && Grows()
      ensures ending.Done? ==>
                Settled(room, m) && seen == old(seen) + {Source(chat, m.id)}
                && pending == old(pending) - {Source(chat, m.id)}
      ensures !ending.Done? ==> seen == old(seen) && pending == old(pending)
      ensures (Now(), ending) == Backfilled(old(Now()), Source(chat, m.id), room, m, fates, reconciled)
    {
      hide ServerInv, IsComponent, Touches;
      ending := RelayMessage(room, m, fates);
      if ending.Done? {
        if !reconciled {
          return Incomplete;
        }
        Handle(Source(chat, m.id), Relayed(room, m));
        Complete(Source(chat, m.id));
      }
    }

    // The history a new room starts with: the same relay, under a cap on how many.
    method Backfill(chat: ChatId, room: RoomId, messages: seq<Message>, fates: seq<seq<Fate>>, reconciled: seq<bool>,
                    cap: nat)
      returns (complete: bool, died: bool)
      requires Valid() && |fates| == |messages| == |reconciled|
      requires forall i | 0 <= i < |messages| :: |fates[i]| == |messages[i].attachments| + 1
      modifies this
      ensures Valid() && Grows()
      ensures complete && !died ==> forall m | m in messages :: Source(chat, m.id) in seen
      ensures forall m | m in messages && Source(chat, m.id) in seen && Source(chat, m.id) !in old(seen) ::
                exists same | same in messages && same.id == m.id :: Settled(room, same)
      ensures !died ==> forall m | m in messages :: Source(chat, m.id) in seen || Source(chat, m.id) in pending
      ensures forall x | x in old(pending) - pending :: x in seen
      ensures |seen - old(seen)| <= cap
      ensures cap >= |messages|
              && (forall i | 0 <= i < |messages| :: CanBeWhole(messages[i], fates[i]) && reconciled[i]) ==>
                complete && !died && forall m | m in messages :: Source(chat, m.id) in seen
      ensures var p := BackfillPass(old(Now()), chat, room, messages, fates, reconciled, cap);
        Now() == p.book && complete == p.complete && died == p.died
    {
      hide Valid, Settled, BackfillPass, CanBeWhole;
      BackfillBound(Now(), chat, room, messages, fates, reconciled, cap);
      BackfillCovers(Now(), chat, room, messages, fates, reconciled, cap);
      complete, died := Offered(chat, room, messages, fates, reconciled, cap);
    }

    // One after the other.
    method Offered(chat: ChatId, room: RoomId, messages: seq<Message>, fates: seq<seq<Fate>>, reconciled: seq<bool>,
                   cap: nat)
      returns (complete: bool, died: bool)
      requires Valid() && |fates| == |messages| == |reconciled|
      requires forall i | 0 <= i < |messages| :: |fates[i]| == |messages[i].attachments| + 1
      modifies this
      ensures Valid() && Grows()
      ensures forall x | x in seen && x !in old(seen) ::
                exists m | m in messages && Source(chat, m.id) == x :: Settled(room, m)
      ensures var p := BackfillPass(old(Now()), chat, room, messages, fates, reconciled, cap);
        Now() == p.book && complete == p.complete && died == p.died
    {
      hide ServerInv, IsComponent, BackfillTurn, BackfillPass, CanBeWhole, HasAll, Valid, Put;
      NoBackfill(Now(), chat, room, messages, fates, reconciled, cap);
      complete, died := true, false;
      var posted := 0;
      for i := 0 to |messages|
        invariant Valid() && Grows()
        invariant forall x | x in seen && x !in old(seen) ::
                    exists m | m in messages && Source(chat, m.id) == x :: Settled(room, m)
        invariant Pass(Now(), posted, complete, false)
                  == BackfillPass(old(Now()), chat, room, messages[..i], fates[..i], reconciled[..i], cap)
      {
        assert messages[i] in messages;
        NextBackfill(old(Now()), chat, room, messages, fates, reconciled, cap, i);
        ghost var was, had := seen, components;
        posted, complete, died := BackfillNext(chat, room, messages[i], fates[i], reconciled[i], cap, posted, complete);
        forall x | x in seen && x !in old(seen)
          ensures exists m | m in messages && Source(chat, m.id) == x :: Settled(room, m)
        {
          if x in was {
            var m :| m in messages && Source(chat, m.id) == x && HasAll(had, room, m);
            HasAllStill(had, components, room, m);
          } else {
            assert Settled(room, messages[i]);
          }
        }
        if died {
          DeadBackfill(old(Now()), chat, room, messages, fates, reconciled, cap, i + 1);
          return;
        }
      }
      assert messages[..|messages|] == messages && fates[..|messages|] == fates;
      assert reconciled[..|messages|] == reconciled;
    }

    method BackfillNext(chat: ChatId, room: RoomId, m: Message, fates: seq<Fate>, reconciled: bool, cap: nat, posted: nat,
                        complete: bool)
      returns (now: nat, still: bool, died: bool)
      requires Valid() && |fates| == |m.attachments| + 1
      modifies this
      ensures Valid() && Grows()
      ensures Pass(Now(), now, still, died)
              == BackfillTurn(Pass(old(Now()), posted, complete, false), Source(chat, m.id), room, m, fates, reconciled,
                              cap)
      ensures seen == old(seen) || (seen == old(seen) + {Source(chat, m.id)} && Settled(room, m))
    {
      hide ServerInv, IsComponent, AfterMessage, Settled;
      now, still, died := posted, complete, false;
      var x := Source(chat, m.id);
      if x !in seen {
        pending := pending + {x};
        if posted >= cap {
          still := false;
        } else {
          now := posted + 1;
          var ending := BackfillOne(chat, room, m, fates, reconciled);
          if ending.Died? {
            died := true;
          }
          if ending.Incomplete? {
            still := false;
          }
        }
      }
    }

    // One poll of a chat: what is new is made pending first, then as many messages as the
    // budget allows are imported. Nothing that was offered is forgotten.
    method HandleChatDelta(chat: ChatId, room: Option<RoomId>, offers: seq<Offer>, budget: nat) returns (died: bool)
      requires Valid() && forall o | o in offers :: o.Fits()
      modifies this
      ensures Valid() && Grows()
      ensures forall o | o in offers :: Source(chat, o.m.id) in seen || Source(chat, o.m.id) in pending
      ensures forall x | x in old(pending) - pending :: x in seen
      ensures |seen - old(seen)| <= budget
      ensures |offers| <= budget && (forall o | o in offers :: CanBeSeen(room, o)) ==>
                !died && forall o | o in offers :: Source(chat, o.m.id) in seen && Source(chat, o.m.id) !in pending
      ensures var unseen := (set o | o in offers :: Source(chat, o.m.id)) - old(seen);
        var p := DeltaPass(old(Now()).(pending := old(pending) + unseen), unseen + old(pending), chat, room, offers,
                           budget);
        Now() == p.book && died == p.died
    {
      hide Valid, DeltaPass, CanBeSeen;
      var offered := set o | o in offers :: Source(chat, o.m.id);
      var unseen, waiting := offered - seen, pending;
      Note(unseen);
      DeltaBound(Now(), unseen + waiting, chat, room, offers, budget);
      DeltaCovers(Now(), unseen + waiting, chat, room, offers, budget);
      DeltaCompletes(Now(), unseen + waiting, chat, room, offers, budget);
      died := Poll(chat, room, offers, budget, unseen + waiting);
    }

    method Note(sources: set<Source>)
      requires Valid()
      modifies this`pending
      ensures Valid() && Grows() && pending == old(pending) + sources
    {
      pending := pending + sources;
    }

    // One after the other.
    method Poll(chat: ChatId, room: Option<RoomId>, offers: seq<Offer>, budget: nat, work: set<Source>)
      returns (died: bool)
      requires Valid() && forall o | o in offers :: o.Fits()
      modifies this
      ensures Valid() && Grows()
      ensures var p := DeltaPass(old(Now()), work, chat, room, offers, budget);
        Now() == p.book && died == p.died
    {
      hide ServerInv, IsComponent, DeltaTurn, Imported, Settled, IsEcho, Valid;
      died := false;
      var processed := 0;
      for i := 0 to |offers|
        invariant Valid() && Grows()
        invariant Pass(Now(), processed, true, false) == DeltaPass(old(Now()), work, chat, room, offers[..i], budget)
      {
        assert offers[i] in offers && offers[..i + 1][..i] == offers[..i];
        processed, died := ImportNext(chat, room, offers[i], Source(chat, offers[i].m.id) in work, budget, processed);
        if died {
          DeadDelta(old(Now()), work, chat, room, offers, budget, i + 1);
          return;
        }
      }
      assert offers[..|offers|] == offers;
    }

    method ImportNext(chat: ChatId, room: Option<RoomId>, o: Offer, work: bool, budget: nat, processed: nat)
      returns (now: nat, died: bool)
      requires Valid() && o.Fits()
      modifies this
      ensures Valid() && Grows()
      ensures Pass(Now(), now, true, died)
              == DeltaTurn(Pass(old(Now()), processed, true, false), work, Source(chat, o.m.id), room, o, budget)
    {
      hide ServerInv, IsComponent, Imported, Settled, IsEcho;
      now, died := processed, false;
      if !(work && (processed >= budget || !o.due)) {
        if work {
          now := processed + 1;
        }
        var ending := ImportMessage(chat, o.m, o.origin, room, o.fates, o.reconciled);
        died := ending.Died?;
      }
    }
  }

  function Colliding(id: MsgId): Message {
    Message(id, [Attachment("1", Readable), Attachment("", Readable)], "")
  }

  lemma CollidingPosts(room: RoomId, id: MsgId)
    ensures Posts(room, Colliding(id)) == [Txn(room, id, AttachmentPart("1"))]
  {
    var m := Colliding(id);
    assert Digits(1) == "1";
    assert ComponentAt(m, 0) == ComponentAt(m, 1) == AttachmentPart("1");
    assert FirstUse(m, 0) && !FirstUse(m, 1);
    assert AttachmentPosts(room, m, 1) == [Txn(room, id, AttachmentPart("1"))];
    assert AttachmentPosts(room, m, 2) == AttachmentPosts(room, m, 1);
  }

  // A run in which an attachment is never sent: its place in the list is the other's id.
  method SecondAttachmentIsLost(room: RoomId, id: MsgId) returns (relay: Relay)
    ensures relay.Valid() && relay.Settled(room, Colliding(id))
    ensures relay.server.posted == [Txn(room, id, AttachmentPart("1"))]
  {
    relay := new Relay();
    assert relay.Unsent(room, Colliding(id));
    hide *;
    CollidingPosts(room, id);
    var fates := [Succeeds, Succeeds, Succeeds];
    assert |Colliding(id).attachments| == 2 && forall a | a in Colliding(id).attachments :: a.check.Readable?;
    var ending := relay.RelayMessage(room, Colliding(id), fates);
  }

  // A relayed message is in its room, once per component and never twice: its receipts are
  // of events that were posted, and no transaction has two.
  lemma PostedOnce(relay: Relay, room: RoomId, m: Message, c: Component)
    requires relay.Valid() && relay.Settled(room, m) && IsComponent(m, c)
    ensures var t := Txn(room, m.id, c);
      && t in relay.components
      && (relay.components[t].Confirmed? ==> exists i :: PostedAt(relay.server.posted, t, i))
    ensures var t, posted := Txn(room, m.id, c), relay.server.posted;
      forall i, j | PostedAt(posted, t, i) && PostedAt(posted, t, j) :: i == j
  {
    var t := Txn(room, m.id, c);
    if relay.components[t].Confirmed? {
      assert PostedAt(relay.server.posted, t, relay.server.byTxn[t]);
    }
  }

  ghost predicate PostedAt(posted: seq<Txn>, t: Txn, i: int) {
    0 <= i < |posted| && posted[i] == t
  }
}

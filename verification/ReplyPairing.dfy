/**
 Which message answers which. The specification counts: a message is answered by the first
 later one at which the messages of the other direction outnumber those of its own.
 */
module ReplyPairing {
  type EventId = string

  datatype Item = Item(id: EventId, incoming: bool)

  // Messages after i and before n: those going i's way, less those going the other way.
  function Balance(s: seq<Item>, i: nat, n: nat): int
    requires i < n <= |s|
    decreases n
  {
    if n == i + 1 then 0
    else Balance(s, i, n - 1) + (if s[n - 1].incoming == s[i].incoming then 1 else -1)
  }

  // No message up to (and not including) position n has tipped the balance of message i.
  ghost predicate OpenTo(s: seq<Item>, i: nat, n: nat) {
    n <= |s| && forall k: nat | i < k <= n :: Balance(s, i, k) >= 0
  }

  ghost predicate Answers(s: seq<Item>, i: nat, j: nat) {
    i < j < |s| && OpenTo(s, i, j) && Balance(s, i, j + 1) < 0
  }

  // ------------------------------------------------------------------ the specification

  lemma {:induction false} BalanceSplit(s: seq<Item>, i: nat, k: nat, n: nat)
    requires i < k < n <= |s| && s[i].incoming == s[k].incoming
    ensures Balance(s, i, n) == Balance(s, i, k) + 1 + Balance(s, k, n)
    decreases n
  {
    if n > k + 1 {
      BalanceSplit(s, i, k, n - 1);
    }
  }

  // An answer goes the other way, and balances all that came before it.
  lemma AnswerShape(s: seq<Item>, i: nat, j: nat)
    requires Answers(s, i, j)
    ensures s[i].incoming != s[j].incoming && Balance(s, i, j) == 0 && Balance(s, i, j + 1) == -1
  {
    assert Balance(s, i, j) >= 0;
  }

  // No message answers two.
  lemma AnswersInjective(s: seq<Item>, i: nat, i': nat, j: nat)
    requires Answers(s, i, j) && Answers(s, i', j)
    ensures i == i'
  {
    if i != i' {
      var a, b := if i < i' then i else i', if i < i' then i' else i;
      AnswerShape(s, a, j);
      AnswerShape(s, b, j);
      BalanceSplit(s, a, b, j);
    }
  }

  // No message has two answers.
  lemma AnswersUnique(s: seq<Item>, i: nat, j: nat, j': nat)
    requires Answers(s, i, j) && Answers(s, i, j')
    ensures j == j'
  {
    assert j < j' ==> i < j + 1 <= j';
    assert j' < j ==> i < j' + 1 <= j;
  }

  lemma {:induction false} FirstCrossing(s: seq<Item>, i: nat, n: nat) returns (j: nat)
    requires i < n <= |s| && Balance(s, i, n) < 0
    ensures Answers(s, i, j) && j < n
    decreases n
  {
    j := n - 1;
    if !OpenTo(s, i, j) {
      var k: nat :| i < k <= j && Balance(s, i, k) < 0;
      j := FirstCrossing(s, i, k);
    }
  }

  // A message is unanswered exactly when its balance never goes negative.
  lemma OpenMeansUnanswered(s: seq<Item>, i: nat)
    requires i < |s|
    ensures OpenTo(s, i, |s|) <==> forall j: nat :: !Answers(s, i, j)
  {
    if !OpenTo(s, i, |s|) {
      var n: nat :| i < n <= |s| && Balance(s, i, n) < 0;
      var j := FirstCrossing(s, i, n);
    }
  }

  // ------------------------------------------------------------------ stability

  lemma {:induction false} BalanceMoves(p: seq<Item>, s: seq<Item>, t: seq<Item>, i: nat, n: nat)
    requires i < n <= |s|
    ensures Balance(p + s + t, |p| + i, |p| + n) == Balance(s, i, n)
    decreases n
  {
    if n > i + 1 {
      BalanceMoves(p, s, t, i, n - 1);
    }
  }

  // Messages added before and after the retained ones change none of their answers.
  lemma AnswersMove(p: seq<Item>, s: seq<Item>, t: seq<Item>, i: nat, j: nat)
    requires j < |s|
    ensures Answers(s, i, j) <==> Answers(p + s + t, |p| + i, |p| + j)
  {
    var w, a, n := p + s + t, |p| + i, |p| + j + 1;
    if i < j {
      forall k: nat | a < k <= n ensures Balance(w, a, k) == Balance(s, i, k - |p|) {
        BalanceMoves(p, s, t, i, k - |p|);
      }
      forall k: nat | i < k <= j
        ensures Balance(s, i, k) == Balance(w, |p| + i, |p| + k)
      {
        BalanceMoves(p, s, t, i, k);
      }
    }
  }

  lemma {:induction false} BalanceInsert(u: seq<Item>, b: Item, v: seq<Item>, i: nat, n: nat)
    requires i < |u| <= n <= |u + v|
    ensures Balance(u + [b] + v, i, n + 1)
            == Balance(u + v, i, n) + (if b.incoming == u[i].incoming then 1 else -1)
    decreases n
  {
    var w := u + [b] + v;
    if n == |u| {
      BalanceMoves([], u, [b] + v, i, n);
      BalanceMoves([], u, v, i, n);
      assert [] + u + ([b] + v) == w && [] + u + v == u + v;
    } else {
      BalanceInsert(u, b, v, i, n - 1);
      assert w[n] == (u + v)[n - 1];
    }
  }

  // Where a message of u + v is once b is shown between u and v.
  function Shifted(u: seq<Item>, i: nat): nat {
    if i < |u| then i else i + 1
  }

  // A message that appears between another and its answer takes that answer away.
  lemma InsertedBreaks(u: seq<Item>, b: Item, v: seq<Item>, i: nat, j: nat)
    requires Answers(u + v, i, j) && i < |u| <= j
    ensures !Answers(u + [b] + v, i, j + 1)
  {
    var s, w := u + v, u + [b] + v;
    AnswerShape(s, i, j);
    if b.incoming == u[i].incoming {
      BalanceInsert(u, b, v, i, j + 1);
    } else {
      BalanceInsert(u, b, v, i, j);
      assert Balance(w, i, j + 1) < 0;
    }
  }

  // A link survives the boundary message appearing between u and v exactly when it does
  // not span that place, whatever is added before and after.
  lemma LinkSurvivesIff(p: seq<Item>, u: seq<Item>, b: Item, v: seq<Item>, t: seq<Item>, i: nat, j: nat)
    requires Answers(u + v, i, j)
    ensures Answers(p + (u + [b] + v) + t, |p| + Shifted(u, i), |p| + Shifted(u, j))
            <==> !(i < |u| <= j)
  {
    var w := u + [b] + v;
    AnswersMove(p, w, t, Shifted(u, i), Shifted(u, j));
    if i < |u| <= j {
      InsertedBreaks(u, b, v, i, j);
    } else if j < |u| {
      AnswersMove([], u, v, i, j);
      assert [] + u + v == u + v;
      AnswersMove([], u, [b] + v, i, j);
      assert [] + u + ([b] + v) == w;
    } else {
      AnswersMove(u, v, [], i - |u|, j - |u|);
      assert u + v + [] == u + v;
      AnswersMove(u + [b], v, [], i - |u|, j - |u|);
      assert u + [b] + v + [] == w;
    }
  }

  // ------------------------------------------------------------------ the two stacks

  datatype Stacks = Stacks(incoming: seq<nat>, outgoing: seq<nat>) {
    function Of(incomingSide: bool): seq<nat> {
      if incomingSide then incoming else outgoing
    }
    function With(incomingSide: bool, s: seq<nat>): Stacks {
      if incomingSide then this.(incoming := s) else this.(outgoing := s)
    }
  }

  // Those above a message on its stack are what keeps its balance up.
  ghost predicate Ranked(s: seq<Item>, n: nat, side: bool, stack: seq<nat>)
    requires n <= |s|
  {
    forall x: nat | x < |stack| ::
      stack[x] < n && s[stack[x]].incoming == side
      && Balance(s, stack[x], n) == |stack| - 1 - x && OpenTo(s, stack[x], n)
  }

  ghost predicate OnStack(s: seq<Item>, n: nat, stack: seq<nat>, i: nat)
    requires i < n <= |s|
  {
    0 <= Balance(s, i, n) < |stack| && stack[|stack| - 1 - Balance(s, i, n)] == i
  }

  ghost predicate HoldsOpen(s: seq<Item>, n: nat, side: bool, stack: seq<nat>)
    requires n <= |s|
  {
    forall i: nat {:trigger OpenTo(s, i, n)} | i < n && s[i].incoming == side && OpenTo(s, i, n) ::
      OnStack(s, n, stack, i)
  }

  // A stack holds, oldest first, the messages of its side still open after n of them.
  ghost predicate StackInv(s: seq<Item>, n: nat, side: bool, stack: seq<nat>)
    requires n <= |s|
  {
    Ranked(s, n, side, stack) && HoldsOpen(s, n, side, stack)
  }

  function Popped(stack: seq<nat>): seq<nat> {
    if |stack| > 0 then stack[..|stack| - 1] else []
  }

  // The next message moves every open balance by one, up or down.
  lemma OpenStep(s: seq<Item>, i: nat, n: nat)
    requires i < n < |s|
    ensures OpenTo(s, i, n + 1) <==> OpenTo(s, i, n) && Balance(s, i, n + 1) >= 0
  {}

  lemma PopRanked(s: seq<Item>, n: nat, side: bool, stack: seq<nat>)
    requires n < |s| && s[n].incoming != side && Ranked(s, n, side, stack)
    ensures |stack| > 0 ==> Answers(s, stack[|stack| - 1], n)
    ensures Ranked(s, n + 1, side, Popped(stack))
  {
    var rest := Popped(stack);
    forall x: nat | x < |rest|
      ensures Balance(s, rest[x], n + 1) == |rest| - 1 - x && OpenTo(s, rest[x], n + 1)
    {
      assert rest[x] == stack[x] && Balance(s, stack[x], n) == |stack| - 1 - x;
      OpenStep(s, stack[x], n);
    }
  }

  lemma PopHoldsOpen(s: seq<Item>, n: nat, side: bool, stack: seq<nat>)
    requires n < |s| && s[n].incoming != side && HoldsOpen(s, n, side, stack)
    ensures HoldsOpen(s, n + 1, side, Popped(stack))
  {
    forall i: nat | i < n + 1 && s[i].incoming == side && OpenTo(s, i, n + 1)
      ensures OnStack(s, n + 1, Popped(stack), i)
    {
      OpenStep(s, i, n);
      assert OnStack(s, n, stack, i);
    }
  }

  lemma PushRanked(s: seq<Item>, n: nat, stack: seq<nat>)
    requires n < |s| && Ranked(s, n, s[n].incoming, stack)
    ensures Ranked(s, n + 1, s[n].incoming, stack + [n])
  {
    var more := stack + [n];
    forall x: nat | x < |more|
      ensures Balance(s, more[x], n + 1) == |more| - 1 - x && OpenTo(s, more[x], n + 1)
    {
      if x < |stack| {
        assert Balance(s, stack[x], n) == |stack| - 1 - x;
        OpenStep(s, stack[x], n);
      }
    }
  }

  lemma PushHoldsOpen(s: seq<Item>, n: nat, stack: seq<nat>)
    requires n < |s| && HoldsOpen(s, n, s[n].incoming, stack)
    ensures HoldsOpen(s, n + 1, s[n].incoming, stack + [n])
  {
    forall i: nat | i < n + 1 && s[i].incoming == s[n].incoming && OpenTo(s, i, n + 1)
      ensures OnStack(s, n + 1, stack + [n], i)
    {
      if i < n {
        OpenStep(s, i, n);
        assert OnStack(s, n, stack, i);
      }
    }
  }

  // What the next message answers is the newest one waiting on the other side.
  lemma OnlyTopIsAnswered(s: seq<Item>, n: nat, side: bool, stack: seq<nat>, i: nat)
    requires n < |s| && s[n].incoming != side && StackInv(s, n, side, stack) && Answers(s, i, n)
    ensures |stack| > 0 && i == stack[|stack| - 1]
  {
    AnswerShape(s, i, n);
    assert OnStack(s, n, stack, i);
  }

  ghost predicate LinkedTo(s: seq<Item>, answered: map<nat, nat>, n: nat) {
    && (forall i: nat | i in answered :: answered[i] < n && Answers(s, i, answered[i]))
    && (forall i: nat, j: nat | j < n && Answers(s, i, j) :: i in answered && answered[i] == j)
  }

  // The newest waiting message, if there is one, is answered by message n.
  function Answered(answered: map<nat, nat>, stack: seq<nat>, n: nat): map<nat, nat> {
    if |stack| > 0 then answered[stack[|stack| - 1] := n] else answered
  }

  lemma LinkStep(s: seq<Item>, answered: map<nat, nat>, n: nat, stack: seq<nat>)
    requires n < |s| && LinkedTo(s, answered, n) && StackInv(s, n, !s[n].incoming, stack)
    ensures LinkedTo(s, Answered(answered, stack, n), n + 1)
  {
    PopRanked(s, n, !s[n].incoming, stack);
    var next := Answered(answered, stack, n);
    forall i: nat, j: nat | j < n + 1 && Answers(s, i, j) ensures i in next && next[i] == j {
      if j == n {
        AnswerShape(s, i, n);
        OnlyTopIsAnswered(s, n, !s[n].incoming, stack, i);
      } else if |stack| > 0 && i == stack[|stack| - 1] {
        AnswersUnique(s, i, j, n);
      }
    }
  }

  datatype Pairing = Pairing(answered: map<nat, nat>, pending: Stacks)

  // Message n takes the newest waiting one of the other side, then waits itself.
  function Take(s: seq<Item>, p: Pairing, n: nat): Pairing
    requires n < |s|
  {
    var side := s[n].incoming;
    Pairing(Answered(p.answered, p.pending.Of(!side), n),
            p.pending.With(!side, Popped(p.pending.Of(!side))).With(side, p.pending.Of(side) + [n]))
  }

  function TakeFirst(s: seq<Item>, n: nat): Pairing
    requires n <= |s|
  {
    if n == 0 then Pairing(map[], Stacks([], [])) else Take(s, TakeFirst(s, n - 1), n - 1)
  }

  ghost predicate PairInv(s: seq<Item>, p: Pairing, n: nat)
    requires n <= |s|
  {
    && LinkedTo(s, p.answered, n)
    && StackInv(s, n, true, p.pending.incoming) && StackInv(s, n, false, p.pending.outgoing)
  }

  lemma PairStep(s: seq<Item>, p: Pairing, n: nat)
    requires n < |s| && PairInv(s, p, n)
    ensures PairInv(s, Take(s, p, n), n + 1)
  {
    var side := s[n].incoming;
    LinkStep(s, p.answered, n, p.pending.Of(!side));
    PopRanked(s, n, !side, p.pending.Of(!side));
    PopHoldsOpen(s, n, !side, p.pending.Of(!side));
    PushRanked(s, n, p.pending.Of(side));
    PushHoldsOpen(s, n, p.pending.Of(side));
  }

  lemma PairStart(s: seq<Item>)
    ensures PairInv(s, TakeFirst(s, 0), 0)
  {}

  lemma {:induction false} PairRun(s: seq<Item>, n: nat)
    requires n <= |s|
    ensures PairInv(s, TakeFirst(s, n), n)
  {
    hide PairInv, Take;
    if n == 0 {
      PairStart(s);
    } else {
      PairRun(s, n - 1);
      PairStep(s, TakeFirst(s, n - 1), n - 1);
    }
  }

  // The links are exactly those the counting specification calls for.
  ghost predicate Paired(s: seq<Item>, answered: map<nat, nat>) {
    && (forall i: nat | i in answered :: Answers(s, i, answered[i]))
    && (forall i: nat, j: nat | Answers(s, i, j) :: i in answered && answered[i] == j)
  }

  lemma PairEnd(s: seq<Item>)
    ensures Paired(s, TakeFirst(s, |s|).answered)
  {
    PairRun(s, |s|);
  }

  method TakeOne(s: seq<Item>, p: Pairing, n: nat) returns (q: Pairing)
    requires n < |s|
    ensures q == Take(s, p, n)
  {
    var answered, pending := p.answered, p.pending;
    var side := s[n].incoming;
    var opposite := pending.Of(!side);
    if |opposite| > 0 {
      answered := answered[opposite[|opposite| - 1] := n];
      pending := pending.With(!side, opposite[..|opposite| - 1]);
    }
    pending := pending.With(side, pending.Of(side) + [n]);
    return Pairing(answered, pending);
  }

  // Two stacks, one for either direction, filled in one pass.
  method PairMessages(s: seq<Item>) returns (answered: map<nat, nat>)
    ensures Paired(s, answered)
  {
    var p := Pairing(map[], Stacks([], []));
    for n := 0 to |s|
      invariant p == TakeFirst(s, n)
    {
      p := TakeOne(s, p, n);
    }
    answered := p.answered;
    PairEnd(s);
  }
}

/**
 Sliding-window caps on native sends. Admissions are rows of a table that is pruned as time
 goes on; the caps hold of everything ever admitted, as long as the clock does not go back.
 */
module RateCaps {
  import opened Wrappers

  type Key = string

  datatype Stamp = Stamp(key: Key, ts: real)

  // The rows that are not older than p.
  function Since(log: seq<Stamp>, p: real): seq<Stamp> {
    if log == [] then []
    else Since(log[..|log| - 1], p) + (if log[|log| - 1].ts >= p then [log[|log| - 1]] else [])
  }

  predicate Inside(s: Stamp, key: Option<Key>, lo: real, hi: real, closed: bool) {
    (key.None? || s.key == key.value) && (if closed then lo <= s.ts else lo < s.ts) && s.ts <= hi
  }

  // Admissions (of one key, or all) between lo and hi; lo itself counts if closed.
  function Count(log: seq<Stamp>, key: Option<Key>, lo: real, hi: real, closed: bool): nat {
    if log == [] then 0
    else
      Count(log[..|log| - 1], key, lo, hi, closed)
      + (if Inside(log[|log| - 1], key, lo, hi, closed) then 1 else 0)
  }

  // What is counted: the places of the log whose row is of the key and in the window.
  ghost function Counted(log: seq<Stamp>, key: Option<Key>, lo: real, hi: real, closed: bool): set<int> {
    set i | 0 <= i < |log| && (key.None? || log[i].key == key.value)
            && (if closed then lo <= log[i].ts else lo < log[i].ts) && log[i].ts <= hi
  }

  lemma {:induction false} CountIs(log: seq<Stamp>, key: Option<Key>, lo: real, hi: real, closed: bool)
    ensures Count(log, key, lo, hi, closed) == |Counted(log, key, lo, hi, closed)|
  {
    if log != [] {
      CountIs(log[..|log| - 1], key, lo, hi, closed);
      CountedOneMore(log, key, lo, hi, closed);
      hide Counted, Inside;
    }
  }

  lemma CountedOneMore(log: seq<Stamp>, key: Option<Key>, lo: real, hi: real, closed: bool)
    requires log != []
    ensures var n := |log| - 1;
      var before := Counted(log[..n], key, lo, hi, closed);
      && n !in before
      && Counted(log, key, lo, hi, closed) == if Inside(log[n], key, lo, hi, closed) then before + {n} else before
  {}

  ghost predicate Chronological(log: seq<Stamp>, clock: real) {
    && (forall i, j | 0 <= i < j < |log| :: log[i].ts <= log[j].ts)
    && (forall i | 0 <= i < |log| :: log[i].ts <= clock)
  }

  // ------------------------------------------------------------------ windows

  ghost predicate CappedAt(log: seq<Stamp>, i: nat, key: Option<Key>, width: real, limit: int, closed: bool)
    requires i < |log|
  {
    key.None? || log[i].key == key.value ==> Count(log[..i], key, log[i].ts - width, log[i].ts, closed) < limit
  }

  // When each was admitted, fewer than `limit` like it lay in the window before it.
  ghost predicate Capped(log: seq<Stamp>, key: Option<Key>, width: real, limit: int, closed: bool) {
    forall i: nat | i < |log| :: CappedAt(log, i, key, width, limit, closed)
  }

  lemma {:induction false} CountShrinks(log: seq<Stamp>, key: Option<Key>, lo: real, hi: real, lo': real, hi': real,
                                            closed: bool)
    requires lo' <= lo && Chronological(log, hi')
    ensures Count(log, key, lo, hi, closed) <= Count(log, key, lo', hi', closed)
  {
    if log != [] {
      CountShrinks(log[..|log| - 1], key, lo, hi, lo', hi', closed);
    }
  }

  lemma CountLast(log: seq<Stamp>, x: Stamp, key: Option<Key>, lo: real, hi: real, closed: bool)
    ensures Count(log + [x], key, lo, hi, closed)
            == Count(log, key, lo, hi, closed) + (if Inside(x, key, lo, hi, closed) then 1 else 0)
  {
    assert (log + [x])[..|log|] == log;
  }

  lemma CappedFront(log: seq<Stamp>, key: Option<Key>, width: real, limit: int, closed: bool)
    requires log != [] && Capped(log, key, width, limit, closed)
    ensures Capped(log[..|log| - 1], key, width, limit, closed)
  {
    hide Count;
    var front := log[..|log| - 1];
    forall i: nat | i < |front| ensures CappedAt(front, i, key, width, limit, closed) {
      assert CappedAt(log, i, key, width, limit, closed);
      assert front[..i] == log[..i] && log[i] == front[i];
    }
  }

  // Then no window of that width, wherever it lies, holds more than `limit`.
  lemma {:induction false} WindowBound(log: seq<Stamp>, clock: real, key: Option<Key>, width: real, limit: int,
                                           closed: bool, t: real)
    requires Chronological(log, clock) && Capped(log, key, width, limit, closed)
    ensures Count(log, key, t, t + width, closed) <= if limit < 0 then 0 else limit
  {
    if log != [] {
      var front, x := log[..|log| - 1], log[|log| - 1];
      hide Count;
      CappedFront(log, key, width, limit, closed);
      assert CappedAt(log, |front|, key, width, limit, closed);
      hide Capped, CappedAt;
      assert Chronological(front, x.ts);
      assert log == front + [x];
      WindowBound(front, clock, key, width, limit, closed, t);
      CountLast(front, x, key, t, t + width, closed);
      if Inside(x, key, t, t + width, closed) {
        CountShrinks(front, key, t, t + width, x.ts - width, x.ts, closed);
      }
    }
  }

  // ------------------------------------------------------------------ pruning

  lemma {:induction false} PruneAgain(log: seq<Stamp>, p: real, q: real)
    requires p <= q
    ensures Since(Since(log, p), q) == Since(log, q)
  {
    if log != [] {
      var front, x := log[..|log| - 1], log[|log| - 1];
      PruneAgain(front, p, q);
      if x.ts >= p {
        assert Since(log, p)[..|Since(log, p)| - 1] == Since(front, p);
      } else {
        assert Since(log, p) == Since(front, p);
      }
    }
  }

  // What has been pruned lies outside the windows that are still asked about.
  lemma {:induction false} PrunedCount(log: seq<Stamp>, p: real, key: Option<Key>, lo: real, hi: real, closed: bool)
    requires p <= lo
    ensures Count(Since(log, p), key, lo, hi, closed) == Count(log, key, lo, hi, closed)
  {
    if log != [] {
      var front, x := log[..|log| - 1], log[|log| - 1];
      assert log == front + [x];
      assert Since(log, p) == Since(front, p) + (if x.ts >= p then [x] else []);
      hide Count, Since;
      PrunedCount(front, p, key, lo, hi, closed);
      CountLast(front, x, key, lo, hi, closed);
      CountLast(Since(front, p), x, key, lo, hi, closed);
      assert Since(front, p) + [] == Since(front, p);
    }
  }

  lemma SinceLast(log: seq<Stamp>, x: Stamp, p: real)
    ensures Since(log + [x], p) == Since(log, p) + (if x.ts >= p then [x] else [])
  {
    assert (log + [x])[..|log|] == log;
  }

  ghost predicate PrunedTo(rows: seq<Stamp>, log: seq<Stamp>, horizon: real) {
    rows == Since(log, horizon)
  }

  // ------------------------------------------------------------------ dispatches per chat

  // Dispatches to one chat: fewer than `limit` in the last minute, the last a second ago.
  ghost predicate DispatchAllowed(log: seq<Stamp>, limit: int, chat: Key, now: real) {
    && Count(log, Some(chat), now - 60.0, now, true) < limit
    && forall s | s in log && s.key == chat :: now - s.ts >= 1.0
  }

  ghost predicate DispatchLog(log: seq<Stamp>, clock: real, limit: int) {
    && Chronological(log, clock)
    && forall i | 0 <= i < |log| :: DispatchAllowed(log[..i], limit, log[i].key, log[i].ts)
  }

  // Whatever was pruned meanwhile: any minute holds at most `limit` dispatches to a chat,
  // and two of them are at least a second apart.
  lemma DispatchesAreCapped(log: seq<Stamp>, clock: real, limit: int, chat: Key, t: real)
    requires DispatchLog(log, clock, limit)
    ensures Count(log, Some(chat), t, t + 60.0, true) <= if limit < 0 then 0 else limit
    ensures forall i, j | 0 <= i < j < |log| && log[i].key == log[j].key :: log[j].ts - log[i].ts >= 1.0
  {
    hide Count;
    forall i: nat | i < |log| ensures CappedAt(log, i, Some(chat), 60.0, limit, true) {
      assert DispatchAllowed(log[..i], limit, log[i].key, log[i].ts);
    }
    WindowBound(log, clock, Some(chat), 60.0, limit, true, t);
    forall i, j | 0 <= i < j < |log| && log[i].key == log[j].key ensures log[j].ts - log[i].ts >= 1.0 {
      assert DispatchAllowed(log[..j], limit, log[j].key, log[j].ts);
      assert log[..j][i] == log[i];
    }
  }

  function KeysOf(rows: seq<Stamp>, chat: Key): seq<real> {
    if rows == [] then []
    else KeysOf(rows[..|rows| - 1], chat) + (if rows[|rows| - 1].key == chat then [rows[|rows| - 1].ts] else [])
  }

  lemma {:induction false} HistoryIsWindow(rows: seq<Stamp>, chat: Key, lo: real, hi: real)
    requires Chronological(rows, hi) && forall s | s in rows :: s.ts >= lo
    ensures |KeysOf(rows, chat)| == Count(rows, Some(chat), lo, hi, true)
    ensures forall s | s in rows && s.key == chat ::
              KeysOf(rows, chat) != [] && s.ts <= KeysOf(rows, chat)[|KeysOf(rows, chat)| - 1]
    ensures KeysOf(rows, chat) != [] ==> Stamp(chat, KeysOf(rows, chat)[|KeysOf(rows, chat)| - 1]) in rows
  {
    if rows != [] {
      var front, x := rows[..|rows| - 1], rows[|rows| - 1];
      assert rows == front + [x];
      assert Chronological(front, hi);
      HistoryIsWindow(front, chat, lo, hi);
      assert KeysOf(rows, chat) == KeysOf(front, chat) + (if x.key == chat then [x.ts] else []);
      hide Count, KeysOf;
      CountLast(front, x, Some(chat), lo, hi, true);
    }
  }

  lemma {:induction false} SinceHolds(log: seq<Stamp>, p: real)
    ensures forall s :: s in Since(log, p) <==> s in log && s.ts >= p
  {
    if log != [] {
      var front, x := log[..|log| - 1], log[|log| - 1];
      assert log == front + [x];
      SinceHolds(front, p);
    }
  }

  lemma {:induction false} SinceKeepsOrder(log: seq<Stamp>, p: real, clock: real)
    requires Chronological(log, clock)
    ensures Chronological(Since(log, p), clock)
  {
    if log != [] {
      var front, x := log[..|log| - 1], log[|log| - 1];
      assert Chronological(front, x.ts);
      SinceKeepsOrder(front, p, x.ts);
    }
  }

  class Dispatches {
    const perMinute: int
    var rows: seq<Stamp>
    ghost var log: seq<Stamp>
    ghost var horizon: real
    ghost var clock: real

    ghost predicate Valid()
      reads this
    {
      DispatchLog(log, clock, perMinute) && PrunedTo(rows, log, horizon) && horizon <= clock - 60.0
    }

    constructor (perMinute: int, now: real)
      ensures Valid() && log == [] && clock == now && this.perMinute == perMinute
    {
      this.perMinute := perMinute;
      rows, log, horizon, clock := [], [], now - 60.0, now;
    }

    // Admission is decided on the rows left, and is what it would be on all there ever were.
    method RateOk(chat: Key, now: real) returns (ok: bool)
      requires Valid() && clock <= now
      modifies this
      ensures Valid() && clock == now
      ensures ok <==>
                && Count(old(log), Some(chat), now - 60.0, now, true) < perMinute
                && forall s | s in old(log) && s.key == chat :: now - s.ts >= 1.0
      ensures log == if ok then old(log) + [Stamp(chat, now)] else old(log)
    {
      hide Count, Since, KeysOf;
      rows := Since(rows, now - 60.0);
      PruneAgain(log, horizon, now - 60.0);
      horizon := now - 60.0;
      clock := now;
      var hist := KeysOf(rows, chat);
      JudgedOnRows(log, now, chat, perMinute);
      if hist != [] && now - hist[|hist| - 1] < 1.0 {
        return false;
      }
      if |hist| >= perMinute {
        return false;
      }
      rows := rows + [Stamp(chat, now)];
      DispatchAdmitted(log, now, perMinute, chat);
      SinceLast(log, Stamp(chat, now), now - 60.0);
      log := log + [Stamp(chat, now)];
      return true;
    }
  }

  // Less than a second ago there was one if and only if the last one left is that young.
  lemma LastIsLeft(log: seq<Stamp>, now: real, chat: Key)
    requires Chronological(log, now)
    ensures var hist := KeysOf(Since(log, now - 60.0), chat);
      (forall s | s in log && s.key == chat :: now - s.ts >= 1.0) <==> hist == [] || now - hist[|hist| - 1] >= 1.0
  {
    hide *;
    var rows := Since(log, now - 60.0);
    SinceKeepsOrder(log, now - 60.0, now);
    SinceHolds(log, now - 60.0);
    HistoryIsWindow(rows, chat, now - 60.0, now);
    var hist := KeysOf(rows, chat);
    if hist == [] || now - hist[|hist| - 1] >= 1.0 {
      forall s | s in log && s.key == chat ensures now - s.ts >= 1.0 {
        if s.ts >= now - 60.0 {
          assert s in rows;
        }
      }
    } else {
      assert Stamp(chat, hist[|hist| - 1]) in log;
    }
  }

  lemma JudgedOnRows(log: seq<Stamp>, now: real, chat: Key, limit: int)
    requires Chronological(log, now)
    ensures var hist := KeysOf(Since(log, now - 60.0), chat);
      DispatchAllowed(log, limit, chat, now) <==> |hist| < limit && (hist == [] || now - hist[|hist| - 1] >= 1.0)
  {
    hide Count, Since, KeysOf, Chronological;
    var rows := Since(log, now - 60.0);
    SinceKeepsOrder(log, now - 60.0, now);
    SinceHolds(log, now - 60.0);
    HistoryIsWindow(rows, chat, now - 60.0, now);
    LastIsLeft(log, now, chat);
    PrunedCount(log, now - 60.0, Some(chat), now - 60.0, now, true);
  }

  lemma DispatchAdmitted(log: seq<Stamp>, now: real, limit: int, chat: Key)
    requires DispatchLog(log, now, limit) && DispatchAllowed(log, limit, chat, now)
    ensures DispatchLog(log + [Stamp(chat, now)], now, limit)
  {
    var next := log + [Stamp(chat, now)];
    forall i | 0 <= i < |next| ensures DispatchAllowed(next[..i], limit, next[i].key, next[i].ts) {
      assert next[..i] == log[..i];
      if i < |log| {
        assert DispatchAllowed(log[..i], limit, log[i].key, log[i].ts);
      } else {
        assert log[..i] == log;
      }
    }
  }

  // ------------------------------------------------------------------ started chats

  const HOUR := 3600.0
  const DAY := 86400.0

  // At most three in an hour, ten in a day, and none to a handle tried in the last minute.
  ghost predicate StartAllowed(log: seq<Stamp>, handle: Key, now: real) {
    && Count(log, None, now - HOUR, now, false) < 3
    && Count(log, None, now - DAY, now, false) < 10
    && Count(log, Some(handle), now - 60.0, now, false) == 0
  }

  ghost predicate StartLog(log: seq<Stamp>, clock: real) {
    Chronological(log, clock) && forall i | 0 <= i < |log| :: StartAllowed(log[..i], log[i].key, log[i].ts)
  }

  // ------------------------------------------------------------------ windows by gaps

  ghost predicate Spans(log: seq<Stamp>, i: nat, n: nat, lo: real, hi: real, closed: bool) {
    && i + n < |log|
    && (if closed then lo <= log[i].ts else lo < log[i].ts)
    && log[i + n].ts <= hi
  }

  ghost predicate SpansSome(log: seq<Stamp>, n: nat, lo: real, hi: real, closed: bool) {
    exists i: nat :: Spans(log, i, n, lo, hi, closed)
  }

  // A window holds more than n if and only if some start and the n-th after it lie in it.
  lemma {:induction false} CountSpans(log: seq<Stamp>, clock: real, n: nat, lo: real, hi: real, closed: bool)
    requires Chronological(log, clock)
    ensures Count(log, None, lo, hi, closed) > n <==> SpansSome(log, n, lo, hi, closed)
    decreases |log|
  {
    if log != [] {
      var front, x := log[..|log| - 1], log[|log| - 1];
      assert log == front + [x];
      assert Chronological(front, x.ts);
      CountSpans(front, x.ts, n, lo, hi, closed);
      CountLast(front, x, None, lo, hi, closed);
      if n > 0 {
        CountSpans(front, x.ts, n - 1, lo, hi, closed);
      }
      hide Count, SpansSome;
      SpansOneMore(front, x, n, lo, hi, closed);
    }
  }

  lemma SpansOneMore(front: seq<Stamp>, x: Stamp, n: nat, lo: real, hi: real, closed: bool)
    requires Chronological(front + [x], x.ts)
    ensures SpansSome(front + [x], n, lo, hi, closed)
            <==> || SpansSome(front, n, lo, hi, closed)
                 || (Inside(x, None, lo, hi, closed) && (n == 0 || SpansSome(front, n - 1, lo, hi, closed)))
  {
    var log := front + [x];
    if i: nat :| Spans(log, i, n, lo, hi, closed) {
      if i + n < |front| {
        assert Spans(front, i, n, lo, hi, closed);
      } else {
        assert log[i].ts <= x.ts;
        assert i + n == |front| && log[i + n] == x;
        if n > 0 {
          SpansShorter(front, x, i, n, lo, hi, closed);
        }
      }
    }
    if i: nat :| Spans(front, i, n, lo, hi, closed) {
      assert Spans(log, i, n, lo, hi, closed);
    }
    if Inside(x, None, lo, hi, closed) {
      if n == 0 {
        assert Spans(log, |front|, 0, lo, hi, closed);
      } else if SpansSome(front, n - 1, lo, hi, closed) {
        SpansLonger(front, x, n, lo, hi, closed);
      }
    }
  }

  lemma SpansShorter(front: seq<Stamp>, x: Stamp, i: nat, n: nat, lo: real, hi: real, closed: bool)
    requires Chronological(front + [x], x.ts) && n > 0 && i + n == |front|
    requires Spans(front + [x], i, n, lo, hi, closed)
    ensures SpansSome(front, n - 1, lo, hi, closed)
  {
    var m := n - 1;
    assert (front + [x])[i + m] == front[i + m] && (front + [x])[i + m].ts <= x.ts;
    assert Spans(front, i, m, lo, hi, closed);
  }

  lemma SpansLonger(front: seq<Stamp>, x: Stamp, n: nat, lo: real, hi: real, closed: bool)
    requires Chronological(front + [x], x.ts) && n > 0 && x.ts <= hi
    requires SpansSome(front, n - 1, lo, hi, closed)
    ensures SpansSome(front + [x], n, lo, hi, closed)
  {
    var m := n - 1;
    var i: nat :| Spans(front, i, m, lo, hi, closed);
    assert (front + [x])[i + n].ts <= x.ts;
    assert Spans(front + [x], i, n, lo, hi, closed);
  }

  // Each comes at least `width` after the one n places before it.
  ghost predicate Gaps(log: seq<Stamp>, n: nat, width: real) {
    forall i, j | 0 <= i < j < |log| && j - i == n :: log[j].ts - log[i].ts >= width
  }

  ghost predicate GapBefore(log: seq<Stamp>, j: nat, n: nat, width: real)
    requires j < |log|
  {
    n <= j ==> log[j].ts - log[j - n].ts >= width
  }

  lemma GapAt(log: seq<Stamp>, clock: real, width: real, n: nat, j: nat)
    requires Chronological(log, clock) && j < |log| && n > 0
    ensures CappedAt(log, j, None, width, n, false) <==> GapBefore(log, j, n, width)
  {
    hide Count;
    var now := log[j].ts;
    assert Chronological(log[..j], now);
    CountSpans(log[..j], now, n - 1, now - width, now, false);
    var m := n - 1;
    if n <= j && now - log[j - n].ts < width {
      assert Spans(log[..j], j - n, m, now - width, now, false);
    }
  }

  // The count that is asked at each start and the gaps say the same.
  lemma CappedIsGaps(log: seq<Stamp>, clock: real, width: real, n: nat)
    requires Chronological(log, clock) && n > 0
    ensures Capped(log, None, width, n, false) <==> Gaps(log, n, width)
  {
    hide Chronological, CappedAt;
    forall j: nat | j < |log|
      ensures CappedAt(log, j, None, width, n, false) <==> GapBefore(log, j, n, width)
    {
      GapAt(log, clock, width, n, j);
    }
    if Gaps(log, n, width) {
      forall j: nat | j < |log| ensures CappedAt(log, j, None, width, n, false) {
        assert GapBefore(log, j, n, width);
      }
    } else {
      var i, j :| 0 <= i < j < |log| && j - i == n && log[j].ts - log[i].ts < width;
      assert !GapBefore(log, j, n, width);
      assert !CappedAt(log, j, None, width, n, false);
    }
  }

  // Closed windows as well stay within the limit if and only if no gap is exactly the width.
  lemma ClosedWindows(log: seq<Stamp>, clock: real, width: real, n: nat)
    requires Chronological(log, clock) && n > 0 && Gaps(log, n, width)
    ensures (forall lo, hi | hi == lo + width :: Count(log, None, lo, hi, true) <= n)
            <==> forall i, j | 0 <= i < j < |log| && j - i == n :: log[j].ts - log[i].ts != width
  {
    hide Count, Chronological;
    if i, j :| 0 <= i < j < |log| && j - i == n && log[j].ts - log[i].ts == width {
      var lo, hi := log[i].ts, log[j].ts;
      CountSpans(log, clock, n, lo, hi, true);
      assert Spans(log, i, n, lo, hi, true);
    } else {
      forall lo, hi | hi == lo + width ensures Count(log, None, lo, hi, true) <= n {
        CountSpans(log, clock, n, lo, hi, true);
      }
    }
  }

  // A closed window holds what came at its beginning and what the open one holds.
  lemma {:induction false} SplitAtBeginning(log: seq<Stamp>, lo: real, hi: real, before: real)
    requires before < lo <= hi
    ensures Count(log, None, lo, hi, true) <= Count(log, None, before, lo, false) + Count(log, None, lo, hi, false)
  {
    if log != [] {
      var front, x := log[..|log| - 1], log[|log| - 1];
      SplitAtBeginning(front, lo, hi, before);
      assert log == front + [x];
      hide Count;
      CountLast(front, x, None, lo, hi, true);
      CountLast(front, x, None, before, lo, false);
      CountLast(front, x, None, lo, hi, false);
    }
  }

  // What the gate admits, said without counting.
  ghost predicate SpacedOut(log: seq<Stamp>) {
    && Gaps(log, 3, 3600.0)
    && Gaps(log, 10, 86400.0)
    && forall i, j | 0 <= i < j < |log| && log[i].key == log[j].key :: log[j].ts - log[i].ts >= 60.0
  }

  ghost predicate FirstInMinute(log: seq<Stamp>, j: nat)
    requires j < |log|
  {
    Count(log[..j], Some(log[j].key), log[j].ts - 60.0, log[j].ts, false) == 0
  }

  lemma FirstInMinuteIff(log: seq<Stamp>, clock: real, j: nat)
    requires Chronological(log, clock) && j < |log|
    ensures FirstInMinute(log, j)
            <==> forall i | 0 <= i < j && log[i].key == log[j].key :: log[j].ts - log[i].ts >= 60.0
  {
    var key, lo, hi := Some(log[j].key), log[j].ts - 60.0, log[j].ts;
    if i :| 0 <= i < j && log[i].key == log[j].key && log[j].ts - log[i].ts < 60.0 {
      CountsOne(log[..j], i, key, lo, hi, false);
    } else {
      hide Count;
      CountsNothing(log[..j], key, lo, hi, false);
    }
  }

  lemma StartAllowedIs(log: seq<Stamp>, j: nat)
    requires j < |log|
    ensures StartAllowed(log[..j], log[j].key, log[j].ts)
            <==> && CappedAt(log, j, None, HOUR, 3, false)
                 && CappedAt(log, j, None, DAY, 10, false)
                 && FirstInMinute(log, j)
  {
    hide Count;
  }

  // A log is admitted by the gate if and only if each start comes an hour after the third
  // before it, a day after the tenth, and a minute after the last to the same handle.
  lemma StartLogIff(log: seq<Stamp>, clock: real)
    requires Chronological(log, clock)
    ensures StartLog(log, clock) <==> SpacedOut(log)
  {
    hide Count, StartAllowed, CappedAt, Gaps, FirstInMinute;
    forall j: nat | j < |log|
      ensures StartAllowed(log[..j], log[j].key, log[j].ts)
              <==> && CappedAt(log, j, None, HOUR, 3, false)
                   && CappedAt(log, j, None, DAY, 10, false)
                   && FirstInMinute(log, j)
      ensures FirstInMinute(log, j)
              <==> forall i | 0 <= i < j && log[i].key == log[j].key :: log[j].ts - log[i].ts >= 60.0
    {
      StartAllowedIs(log, j);
      FirstInMinuteIff(log, clock, j);
    }
    CappedIsGaps(log, clock, HOUR, 3);
    CappedIsGaps(log, clock, DAY, 10);
    if StartLog(log, clock) {
      forall j: nat | j < |log|
        ensures CappedAt(log, j, None, HOUR, 3, false) && CappedAt(log, j, None, DAY, 10, false) && FirstInMinute(log, j)
      {
        assert StartAllowed(log[..j], log[j].key, log[j].ts);
      }
    }
  }

  // Windows open at their beginning hold three an hour and ten a day. With the beginning
  // counted in they hold up to twice and up to three more.
  lemma StartsAreCapped(log: seq<Stamp>, clock: real, t: real)
    requires StartLog(log, clock)
    ensures Count(log, None, t, t + HOUR, false) <= 3
    ensures Count(log, None, t, t + DAY, false) <= 10
    ensures Count(log, None, t, t + HOUR, true) <= 6
    ensures Count(log, None, t, t + DAY, true) <= 13
    ensures forall i, j | 0 <= i < j < |log| && log[i].key == log[j].key :: log[j].ts - log[i].ts >= 60.0
  {
    hide Count, Capped, StartAllowed, Gaps;
    StartLogIff(log, clock);
    CappedIsGaps(log, clock, HOUR, 3);
    CappedIsGaps(log, clock, DAY, 10);
    WindowBound(log, clock, None, HOUR, 3, false, t);
    WindowBound(log, clock, None, DAY, 10, false, t);
    WindowBound(log, clock, None, HOUR, 3, false, t - HOUR);
    SplitAtBeginning(log, t, t + HOUR, t - HOUR);
    SplitAtBeginning(log, t, t + DAY, t - HOUR);
  }

  // Hours with both ends counted are capped if and only if no start comes exactly an hour
  // after the third before it, and days if and only if none comes exactly a day after the tenth.
  lemma ClosedWindowsAreCappedIff(log: seq<Stamp>, clock: real)
    requires StartLog(log, clock)
    ensures (forall lo, hi | hi == lo + HOUR :: Count(log, None, lo, hi, true) <= 3)
            <==> forall i, j | 0 <= i < j < |log| && j - i == 3 :: log[j].ts - log[i].ts != HOUR
    ensures (forall lo, hi | hi == lo + DAY :: Count(log, None, lo, hi, true) <= 10)
            <==> forall i, j | 0 <= i < j < |log| && j - i == 10 :: log[j].ts - log[i].ts != DAY
  {
    hide Count, StartAllowed, Gaps;
    StartLogIff(log, clock);
    ClosedWindows(log, clock, HOUR, 3);
    ClosedWindows(log, clock, DAY, 10);
  }

  lemma {:induction false} CountsOne(log: seq<Stamp>, i: nat, key: Option<Key>, lo: real, hi: real, closed: bool)
    requires i < |log| && Inside(log[i], key, lo, hi, closed)
    ensures Count(log, key, lo, hi, closed) > 0
    decreases |log|
  {
    if i < |log| - 1 {
      CountsOne(log[..|log| - 1], i, key, lo, hi, closed);
    }
  }

  lemma {:induction false} CountsNothing(log: seq<Stamp>, key: Option<Key>, lo: real, hi: real, closed: bool)
    requires forall i | 0 <= i < |log| :: !Inside(log[i], key, lo, hi, closed)
    ensures Count(log, key, lo, hi, closed) == 0
  {
    if log != [] {
      CountsNothing(log[..|log| - 1], key, lo, hi, closed);
    }
  }

  // Three starts, then one, three in each of two later hours, and three a day after the first.
  function StartTime(k: nat): real {
    if k < 3 then 0.0
    else if k < 6 then HOUR
    else if k < 9 then 2.0 * HOUR
    else if k < 10 then 3.0 * HOUR
    else DAY
  }

  function StartsOf(keys: seq<Key>): (log: seq<Stamp>)
    ensures |log| == |keys|
  {
    seq(|keys|, k requires 0 <= k < |keys| => Stamp(keys[k], StartTime(k)))
  }

  // The gate admits thirteen in a closed day, six of them in its first hour: the bounds are met.
  lemma ClosedWindowsAreTight(keys: seq<Key>)
    requires |keys| == 13 && forall i, j | 0 <= i < j < |keys| :: keys[i] != keys[j]
    ensures StartLog(StartsOf(keys), DAY)
    ensures Count(StartsOf(keys), None, 0.0, HOUR, true) == 6
    ensures Count(StartsOf(keys), None, 0.0, DAY, true) == 13
  {
    hide Count, StartAllowed;
    var log := StartsOf(keys);
    assert Chronological(log, DAY);
    assert SpacedOut(log);
    StartLogIff(log, DAY);
    StartsAreCapped(log, DAY, 0.0);
    CountSpans(log, DAY, 5, 0.0, HOUR, true);
    CountSpans(log, DAY, 12, 0.0, DAY, true);
    assert Spans(log, 0, 5, 0.0, HOUR, true);
    assert Spans(log, 0, 12, 0.0, DAY, true);
    assert 0.0 + HOUR == HOUR && 0.0 + DAY == DAY;
  }

  class StartChats {
    var rows: seq<Stamp>
    ghost var log: seq<Stamp>
    ghost var horizon: real
    ghost var clock: real

    ghost predicate Valid()
      reads this
    {
      StartLog(log, clock) && PrunedTo(rows, log, horizon) && horizon <= clock - DAY
    }

    constructor (now: real)
      ensures Valid() && log == [] && clock == now
    {
      rows, log, horizon, clock := [], [], now - DAY, now;
    }

    // The counts are of the rows left, and are those of all there ever were.
    method StartChatGate(handle: Key, now: real) returns (ok: bool, hourCount: nat, dayCount: nat)
      requires Valid() && clock <= now
      modifies this
      ensures Valid() && clock == now
      ensures ok <==> hourCount < 3 && dayCount < 10 && Count(old(log), Some(handle), now - 60.0, now, false) == 0
      ensures log == if ok then old(log) + [Stamp(handle, now)] else old(log)
      ensures hourCount == Count(old(log), None, now - 3600.0, now, false)
      ensures dayCount == Count(old(log), None, now - 86400.0, now, false)
    {
      hide Count, Since;
      rows := Since(rows, now - DAY);
      PruneAgain(log, horizon, now - DAY);
      horizon := now - DAY;
      clock := now;
      PrunedCount(log, now - DAY, None, now - HOUR, now, false);
      PrunedCount(log, now - DAY, None, now - DAY, now, false);
      PrunedCount(log, now - DAY, Some(handle), now - 60.0, now, false);
      hourCount := Count(rows, None, now - HOUR, now, false);
      dayCount := Count(rows, None, now - DAY, now, false);
      var again := Count(rows, Some(handle), now - 60.0, now, false) > 0;
      if hourCount >= 3 || dayCount >= 10 || again {
        return false, hourCount, dayCount;
      }
      rows := rows + [Stamp(handle, now)];
      StartAdmitted(log, now, handle);
      SinceLast(log, Stamp(handle, now), now - DAY);
      log := log + [Stamp(handle, now)];
      return true, hourCount, dayCount;
    }
  }

  lemma StartAdmitted(log: seq<Stamp>, now: real, handle: Key)
    requires StartLog(log, now) && StartAllowed(log, handle, now)
    ensures StartLog(log + [Stamp(handle, now)], now)
  {
    var next := log + [Stamp(handle, now)];
    forall i | 0 <= i < |next| ensures StartAllowed(next[..i], next[i].key, next[i].ts) {
      assert next[..i] == log[..i];
      if i < |log| {
        assert StartAllowed(log[..i], log[i].key, log[i].ts);
      } else {
        assert log[..i] == log;
      }
    }
  }
}

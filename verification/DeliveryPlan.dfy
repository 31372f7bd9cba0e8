/** When a notification may go out: weekly windows, reminder slots, and collecting intervals. */
module DeliveryPlan {
  import opened Numerals
  import opened Wrappers

  // ------------------------------------------------------------------ weekly windows

  const DAY := 1440
  const WEEK := 10080

  datatype Schedule = Schedule(zone: string, working: bool, days: set<int>, start: int, end: int)

  // Day of the week, Monday being 1, and minute of the day.
  datatype Local = Local(day: int, minute: int)

  // What an instant is in each zone there is.
  type Clock = map<string, Local>

  predicate ValidSchedule(s: Schedule) {
    && 1 <= |s.days| <= 7 && (forall d | d in s.days :: 1 <= d <= 7)
    && 0 <= s.start < DAY && 0 <= s.end <= DAY && s.start != s.end
  }

  predicate ValidLocal(at: Local) {
    1 <= at.day <= 7 && 0 <= at.minute < DAY
  }

  predicate Inside(s: Schedule, at: Local) {
    if s.start < s.end then at.day in s.days && s.start <= at.minute < s.end
    else (at.day in s.days && at.minute >= s.start)
         || ((if at.day == 1 then 7 else at.day - 1) in s.days && at.minute < s.end)
  }

  // A schedule that is not well formed, or in no known zone, allows nothing.
  predicate MonitoringAllows(schedule: Option<Schedule>, clock: Clock) {
    schedule.Some? ==>
      && ValidSchedule(schedule.value) && schedule.value.zone in clock
      && Inside(schedule.value, clock[schedule.value.zone]) == schedule.value.working
  }

  // Minutes since the last time day d was at the window's start.
  function Since(s: Schedule, d: int, at: Local): int {
    ((at.day - d) * DAY + at.minute - s.start) % WEEK
  }

  function Length(s: Schedule): int {
    if s.start < s.end then s.end - s.start else s.end + DAY - s.start
  }

  lemma Wrap(x: int)
    requires -WEEK <= x < 2 * WEEK
    ensures x % WEEK == if x < 0 then x + WEEK else if x < WEEK then x else x - WEEK
  {}

  // Over midnight or not, at the turn of the week or not: a moment is inside exactly if a
  // window opened on one of the days less than its length ago.
  lemma InsideIffOpenedRecently(s: Schedule, at: Local)
    requires ValidSchedule(s) && ValidLocal(at)
    ensures Inside(s, at) <==> exists d | d in s.days :: Since(s, d, at) < Length(s)
  {
    forall d | 1 <= d <= 7
      ensures Since(s, d, at) < Length(s) <==>
        (if s.start < s.end then d == at.day && s.start <= at.minute < s.end
         else (d == at.day && at.minute >= s.start) || (d == (if at.day == 1 then 7 else at.day - 1) && at.minute < s.end))
    {
      Wrap((at.day - d) * DAY + at.minute - s.start);
    }
    if Inside(s, at) {
      var d := if at.day in s.days && s.start <= at.minute then at.day else if at.day == 1 then 7 else at.day - 1;
      assert d in s.days && Since(s, d, at) < Length(s);
    }
  }

  // A working schedule allows what lies within its windows, a quiet one what does not; one
  // that is not well formed, or in no known zone, allows nothing, and none allows all.
  lemma AllowedIff(schedule: Option<Schedule>, clock: Clock)
    requires forall z | z in clock :: 1 <= clock[z].day <= 7 && 0 <= clock[z].minute < 1440
    ensures schedule.None? ==> MonitoringAllows(schedule, clock)
    ensures schedule.Some? ==>
              var s := schedule.value;
              var fits := && s.zone in clock && 1 <= |s.days| <= 7 && (forall d | d in s.days :: 1 <= d <= 7)
                          && 0 <= s.start < 1440 && 0 <= s.end <= 1440 && s.start != s.end;
              if !fits then !MonitoringAllows(schedule, clock)
              else
              var within := exists d | d in s.days :: Since(s, d, clock[s.zone]) < Length(s);
              MonitoringAllows(schedule, clock) <==> if s.working then within else !within
  {
    if schedule.Some? && schedule.value.zone in clock && ValidSchedule(schedule.value) {
      InsideIffOpenedRecently(schedule.value, clock[schedule.value.zone]);
    }
  }

  // ------------------------------------------------------------------ reminder slots

  const MINUTE_MS := 60000
  const HOUR_MS := 3600000
  const DAY_MS := 86400000
  const YEAR_MS := 31536000000

  function ReminderSlot(due: int, repeat: Option<int>, at: int): Option<int> {
    if due <= 0 || at < due then None
    else if repeat.None? then Some(due)
    else if !(MINUTE_MS <= repeat.value <= YEAR_MS) then None
    else Some(due + (at - due) / repeat.value * repeat.value)
  }

  // A reminder has a slot once it is due, unless its repetition is none that can be.
  lemma SlotIff(due: int, repeat: Option<int>, at: int)
    ensures ReminderSlot(due, repeat, at).Some? <==>
              0 < due <= at && (repeat.Some? ==> 60000 <= repeat.value <= 31536000000)
    ensures repeat.None? && 0 < due <= at ==> ReminderSlot(due, repeat, at) == Some(due)
  {}

  lemma DivisionBounds(x: int, n: int)
    requires n > 0
    ensures x / n * n <= x < x / n * n + n
  {
    assert x == x / n * n + x % n;
  }

  // The last repetition that has come.
  lemma SlotBounds(due: int, repeat: int, at: int)
    requires 0 < due <= at && MINUTE_MS <= repeat <= YEAR_MS
    ensures ReminderSlot(due, Some(repeat), at).Some?
    ensures var slot := ReminderSlot(due, Some(repeat), at).value;
      due <= slot <= at < slot + repeat && (slot - due) % repeat == 0
  {
    DivisionBounds(at - due, repeat);
    Multiples((at - due) / repeat, repeat);
  }

  // It stays the same until the next one comes, and only until then.
  lemma SlotIsLastRepetition(due: int, repeat: int, at: int, later: int)
    requires 0 < due <= at <= later && MINUTE_MS <= repeat <= YEAR_MS
    ensures ReminderSlot(due, Some(repeat), at).Some?
    ensures var slot := ReminderSlot(due, Some(repeat), at).value;
      ReminderSlot(due, Some(repeat), later) == Some(slot) <==> later < slot + repeat
  {
    var slot, next := ReminderSlot(due, Some(repeat), at).value, ReminderSlot(due, Some(repeat), later).value;
    SlotBounds(due, repeat, at);
    SlotBounds(due, repeat, later);
    hide ReminderSlot;
    if later < slot + repeat {
      if slot < next {
        MultiplesApart(slot - due, next - due, repeat);
      } else if next < slot {
        MultiplesApart(next - due, slot - due, repeat);
      }
    }
  }

  lemma {:induction false} NextMultiple(k: int, m: int, n: int)
    requires n > 0 && k < m
    ensures k * n + n <= m * n
    decreases m - k
  {
    if k + 1 < m {
      NextMultiple(k, m - 1, n);
      assert (m - 1) * n + n == m * n;
    } else {
      assert (k + 1) * n == k * n + n;
    }
  }

  lemma SameMultiple(k: int, m: int, n: int)
    requires n > 0 && m * n < k * n + n && k * n < m * n + n
    ensures k == m
  {
    if k < m {
      NextMultiple(k, m, n);
    } else if m < k {
      NextMultiple(m, k, n);
    }
  }

  lemma Multiples(k: int, n: int)
    requires n > 0
    ensures (k * n) % n == 0 && (k >= 0 ==> k * n >= 0)
  {
    DivisionBounds(k * n, n);
    SameMultiple(k, k * n / n, n);
    assert k * n == k * n / n * n + k * n % n;
  }

  // Between two multiples there is a whole step.
  lemma MultiplesApart(x: int, y: int, n: int)
    requires n > 0 && x % n == 0 && y % n == 0 && x < y
    ensures x + n <= y
  {
    var k, m := x / n, y / n;
    assert x == k * n && y == m * n by {
      assert x == x / n * n + x % n && y == y / n * n + y % n;
    }
    if m < k {
      NextMultiple(m, k, n);
    } else if k < m {
      NextMultiple(k, m, n);
    }
  }

  // ------------------------------------------------------------------ collecting

  datatype Presentation = Immediate | Grouped(interval: int) | Digest(interval: int)

  datatype Rule = Rule(list: string, schedule: Option<Schedule>, presentation: Presentation)

  datatype Choice = Choice(presentation: Presentation, ready: int, key: string, list: string)

  predicate ValidPresentation(p: Presentation) {
    match p
    case Immediate => true
    case Grouped(interval) => MINUTE_MS <= interval <= HOUR_MS
    case Digest(interval) => MINUTE_MS <= interval <= DAY_MS
  }

  function Ready(p: Presentation, created: int): int
    requires ValidPresentation(p)
  {
    if p.Immediate? then created else (created / p.interval + 1) * p.interval
  }

  function Collection(p: Presentation, created: int, at: int): int
    requires ValidPresentation(p)
  {
    if p.Immediate? then created
    else
      var boundary := at / p.interval * p.interval;
      if Ready(p, created) > boundary then Ready(p, created) else boundary
  }

  function KeyFor(rule: Rule, created: int, at: int, room: string): string
    requires ValidPresentation(rule.presentation)
  {
    match rule.presentation
    case Immediate => ""
    case Grouped(_) => "grouped:" + room + ":" + Digits(Collection(rule.presentation, created, at))
    case Digest(_) => "digest:" + rule.list + ":" + Digits(Collection(rule.presentation, created, at))
  }

  // A message waits for the first boundary strictly after it was created.
  lemma ReadyIsNextBoundary(p: Presentation, created: int, boundary: int)
    requires ValidPresentation(p) && !p.Immediate?
    ensures created < Ready(p, created) <= created + p.interval && Ready(p, created) % p.interval == 0
    ensures boundary % p.interval == 0 && created < boundary ==> Ready(p, created) <= boundary
  {
    var n, k := p.interval, created / p.interval;
    DivisionBounds(created, n);
    NextMultiple(k, k + 1, n);
    assert (k + 1) * n == k * n + n;
    Multiples(k + 1, n);
    Multiples(k, n);
    if boundary % n == 0 && created < boundary {
      MultiplesApart(k * n, boundary, n);
    }
  }

  // What has matured is collected at the last boundary, whenever it was created.
  lemma MaturedCollection(p: Presentation, created: int, at: int)
    requires ValidPresentation(p) && !p.Immediate?
    ensures Ready(p, created) <= at ==> Collection(p, created, at) == at / p.interval * p.interval
    ensures Ready(p, created) > at ==> Collection(p, created, at) == Ready(p, created) > at
  {
    DivisionBounds(at, p.interval);
    if Ready(p, created) <= at && Ready(p, created) > at / p.interval * p.interval {
      DivisionBounds(Ready(p, created), p.interval);
      SameMultiple(created / p.interval + 1, at / p.interval, p.interval);
    }
  }

  // Any two matured messages of a rule go out together: a digest takes them from any room,
  // a group from one. One that has not matured has a key of its own time.
  lemma MaturedShareKey(rule: Rule, c1: int, room1: string, c2: int, room2: string, at: int)
    requires ValidPresentation(rule.presentation) && !rule.presentation.Immediate?
    requires Ready(rule.presentation, c1) <= at && (rule.presentation.Grouped? ==> room1 == room2)
    ensures Ready(rule.presentation, c2) <= at ==> KeyFor(rule, c1, at, room1) == KeyFor(rule, c2, at, room2)
    ensures Ready(rule.presentation, c2) > at ==> KeyFor(rule, c1, at, room1) != KeyFor(rule, c2, at, room2)
  {
    KeysIff(rule, c1, room1, rule, c2, room2, at);
    MaturedCollection(rule.presentation, c1, at);
    MaturedCollection(rule.presentation, c2, at);
    DivisionBounds(at, rule.presentation.interval);
  }

  // Two collected messages have one key if and only if they are collected at the same time,
  // in groups of one room or in digests of one list.
  lemma KeysIff(rule: Rule, c1: int, room1: string, other: Rule, c2: int, room2: string, at: int)
    requires ValidPresentation(rule.presentation) && !rule.presentation.Immediate?
    requires ValidPresentation(other.presentation) && !other.presentation.Immediate?
    ensures KeyFor(rule, c1, at, room1) == KeyFor(other, c2, at, room2) <==>
              && Collection(rule.presentation, c1, at) == Collection(other.presentation, c2, at)
              && (rule.presentation.Grouped? <==> other.presentation.Grouped?)
              && (if rule.presentation.Grouped? then room1 == room2 else rule.list == other.list)
  {
    var a, b := Collection(rule.presentation, c1, at), Collection(other.presentation, c2, at);
    var x := if rule.presentation.Grouped? then "grouped:" + room1 else "digest:" + rule.list;
    var y := if other.presentation.Grouped? then "grouped:" + room2 else "digest:" + other.list;
    LastColon(x, a, y, b);
    assert x[0] == (if rule.presentation.Grouped? then 'g' else 'd');
    assert y[0] == (if other.presentation.Grouped? then 'g' else 'd');
    assert rule.presentation.Grouped? ==> x[8..] == room1;
    assert other.presentation.Grouped? ==> y[8..] == room2;
    assert rule.presentation.Digest? ==> x[7..] == rule.list;
    assert other.presentation.Digest? ==> y[7..] == other.list;
    hide Digits, Collection;
  }

  // A message that is not collected has no key, and is ready when it is created.
  lemma ImmediateIs(rule: Rule, created: int, at: int, room: string)
    requires rule.presentation.Immediate?
    ensures Ready(rule.presentation, created) == created && KeyFor(rule, created, at, room) == ""
  {}

  // Groups are collected every minute to every hour, digests every minute to every day.
  lemma PresentationIs(p: Presentation)
    ensures ValidPresentation(p) <==> match p
              case Immediate => true
              case Grouped(interval) => 60000 <= interval <= 3600000
              case Digest(interval) => 60000 <= interval <= 86400000
  {}

  // ------------------------------------------------------------------ the plan

  function Less(a: string, b: string): bool {
    if b == "" then false
    else if a == "" then true
    else if a[0] != b[0] then a[0] < b[0]
    else Less(a[1..], b[1..])
  }

  lemma {:induction false} LessTransitive(a: string, b: string, c: string)
    requires !Less(b, a) && !Less(c, b)
    ensures !Less(c, a)
    decreases |a| + |b| + |c|
  {
    if a != "" && b != "" && c != "" && a[0] == b[0] == c[0] {
      LessTransitive(a[1..], b[1..], c[1..]);
    }
  }

  predicate Precedes(x: Choice, y: Choice) {
    x.ready < y.ready || (x.ready == y.ready && Less(x.key, y.key))
  }

  lemma PrecedesTransitive(x: Choice, y: Choice, z: Choice)
    requires !Precedes(y, x) && !Precedes(z, y)
    ensures !Precedes(z, x)
  {
    if z.ready == y.ready == x.ready {
      LessTransitive(x.key, y.key, z.key);
    }
  }

  predicate Applies(rule: Rule, clock: Clock) {
    MonitoringAllows(rule.schedule, clock) && ValidPresentation(rule.presentation)
  }

  function ChoiceOf(rule: Rule, created: int, at: int, room: string): Choice
    requires ValidPresentation(rule.presentation)
  {
    Choice(rule.presentation, Ready(rule.presentation, created), KeyFor(rule, created, at, room), rule.list)
  }

  // Rule i is the plan: it applies, none goes before it, and of its equals it is the first.
  ghost predicate Wins(rules: seq<Rule>, i: nat, created: int, at: int, clock: Clock, room: string) {
    && i < |rules| && Applies(rules[i], clock)
    && (forall j: nat | j < |rules| && Applies(rules[j], clock) ::
          !Precedes(ChoiceOf(rules[j], created, at, room), ChoiceOf(rules[i], created, at, room)))
    && (forall j: nat | j < i && Applies(rules[j], clock) ::
          Precedes(ChoiceOf(rules[i], created, at, room), ChoiceOf(rules[j], created, at, room)))
  }

  // There is one plan at most.
  lemma WinnerUnique(rules: seq<Rule>, i: nat, k: nat, created: int, at: int, clock: Clock, room: string)
    requires Wins(rules, i, created, at, clock, room) && Wins(rules, k, created, at, clock, room)
    ensures i == k
  {
    hide Precedes, ChoiceOf, Applies;
  }

  // `choices` are those of the rules among the first n that apply, and `places` say which.
  ghost predicate Gathered(rules: seq<Rule>, n: nat, choices: seq<Choice>, places: seq<nat>,
                           created: int, at: int, clock: Clock, room: string)
    requires n <= |rules|
  {
    && |places| == |choices|
    && (forall c | 0 <= c < |places| :: places[c] < n && Applies(rules[places[c]], clock)
                                        && choices[c] == ChoiceOf(rules[places[c]], created, at, room))
    && (forall c, d | 0 <= c < d < |places| :: places[c] < places[d])
    && (forall j: nat | j < n && Applies(rules[j], clock) :: j in places)
  }

  lemma GatherOne(rules: seq<Rule>, n: nat, choices: seq<Choice>, places: seq<nat>,
                  created: int, at: int, clock: Clock, room: string)
    requires n < |rules| && Gathered(rules, n, choices, places, created, at, clock, room)
    ensures if Applies(rules[n], clock) then
              Gathered(rules, n + 1, choices + [ChoiceOf(rules[n], created, at, room)], places + [n],
                       created, at, clock, room)
            else Gathered(rules, n + 1, choices, places, created, at, clock, room)
  {
    hide ChoiceOf, MonitoringAllows, ValidPresentation;
  }

  // Among the rules open now the one that lets the message go first; between equals, by key.
  method Plan(rules: seq<Rule>, created: int, at: int, clock: Clock, room: string) returns (plan: Option<Choice>)
    ensures plan.None? <==> forall r | r in rules :: !Applies(r, clock)
    ensures plan.Some? ==> exists i: nat ::
              Wins(rules, i, created, at, clock, room) && plan.value == ChoiceOf(rules[i], created, at, room)
    ensures plan.Some? ==> forall r | r in rules && Applies(r, clock) ::
              plan.value.ready <= Ready(r.presentation, created)
  {
    hide ChoiceOf, MonitoringAllows, Gathered, Ready;
    var choices: seq<Choice> := [];
    ghost var places: seq<nat> := [];
    GatherNone(rules, created, at, clock, room);
    for i := 0 to |rules|
      invariant Gathered(rules, i, choices, places, created, at, clock, room)
    {
      GatherOne(rules, i, choices, places, created, at, clock, room);
      if Applies(rules[i], clock) {
        choices := choices + [ChoiceOf(rules[i], created, at, room)];
        places := places + [i];
      }
    }
    GatheredSome(rules, choices, places, created, at, clock, room);
    if choices == [] {
      return None;
    }
    var first := Least(choices);
    Winner(rules, choices, places, first, created, at, clock, room);
    ghost var i: nat := places[first];
    assert Wins(rules, i, created, at, clock, room);
    return Some(choices[first]);
  }

  lemma GatherNone(rules: seq<Rule>, created: int, at: int, clock: Clock, room: string)
    ensures Gathered(rules, 0, [], [], created, at, clock, room)
  {}

  lemma GatheredSome(rules: seq<Rule>, choices: seq<Choice>, places: seq<nat>,
                     created: int, at: int, clock: Clock, room: string)
    requires Gathered(rules, |rules|, choices, places, created, at, clock, room)
    ensures choices == [] <==> forall r | r in rules :: !Applies(r, clock)
  {
    hide ChoiceOf, Applies;
    if choices == [] {
      forall r | r in rules ensures !Applies(r, clock) {
        var j: nat :| j < |rules| && rules[j] == r;
        assert j !in places;
      }
    } else {
      assert Applies(rules[places[0]], clock);
    }
  }

  lemma Winner(rules: seq<Rule>, choices: seq<Choice>, places: seq<nat>, first: nat,
               created: int, at: int, clock: Clock, room: string)
    requires Gathered(rules, |rules|, choices, places, created, at, clock, room) && first < |choices|
    requires forall c: nat | c < |choices| :: !Precedes(choices[c], choices[first])
    requires forall c: nat | c < first :: Precedes(choices[first], choices[c])
    ensures first < |places| && Wins(rules, places[first], created, at, clock, room)
    ensures choices[first] == ChoiceOf(rules[places[first]], created, at, room)
    ensures forall r | r in rules && Applies(r, clock) :: choices[first].ready <= Ready(r.presentation, created)
  {
    hide ChoiceOf, Ready, KeyFor, MonitoringAllows, Precedes;
    forall j: nat | j < |rules| && Applies(rules[j], clock)
      ensures !Precedes(ChoiceOf(rules[j], created, at, room), choices[first])
      ensures j < places[first] ==> Precedes(choices[first], ChoiceOf(rules[j], created, at, room))
      ensures choices[first].ready <= Ready(rules[j].presentation, created)
    {
      var c: nat :| c < |places| && places[c] == j;
      NotBefore(rules[j], choices[first], created, at, room);
    }
  }

  lemma NotBefore(rule: Rule, other: Choice, created: int, at: int, room: string)
    requires ValidPresentation(rule.presentation)
    ensures !Precedes(ChoiceOf(rule, created, at, room), other) ==> other.ready <= Ready(rule.presentation, created)
  {}

  // The first of the least.
  method Least(choices: seq<Choice>) returns (first: nat)
    requires choices != []
    ensures first < |choices| && forall c: nat | c < |choices| :: !Precedes(choices[c], choices[first])
    ensures forall c: nat | c < first :: Precedes(choices[first], choices[c])
  {
    first := 0;
    LessIrreflexive(choices[0].key);
    for i := 1 to |choices|
      invariant first < i && forall j: nat | j < i :: !Precedes(choices[j], choices[first])
      invariant forall j: nat | j < first :: Precedes(choices[first], choices[j])
    {
      LessIrreflexive(choices[i].key);
      if Precedes(choices[i], choices[first]) {
        Asymmetric(choices[i], choices[first]);
        forall j: nat | j < i ensures Precedes(choices[i], choices[j]) && !Precedes(choices[j], choices[i]) {
          Earlier(choices[i], choices[first], choices[j]);
        }
        first := i;
      }
    }
  }

  lemma Earlier(x: Choice, y: Choice, z: Choice)
    requires Precedes(x, y) && !Precedes(z, y)
    ensures Precedes(x, z) && !Precedes(z, x)
  {
    Asymmetric(x, y);
    PrecedesTransitive(x, y, z);
    if x.ready == y.ready == z.ready && !Less(x.key, z.key) {
      LessTransitive(y.key, z.key, x.key);
    }
  }

  lemma {:induction false} LessIrreflexive(a: string)
    ensures !Less(a, a)
  {
    if a != "" {
      LessIrreflexive(a[1..]);
    }
  }

  lemma {:induction false} LessAsymmetric(a: string, b: string)
    requires Less(a, b)
    ensures !Less(b, a)
  {
    if a != "" && a[0] == b[0] {
      LessAsymmetric(a[1..], b[1..]);
    }
  }

  lemma Asymmetric(x: Choice, y: Choice)
    requires Precedes(x, y)
    ensures !Precedes(y, x)
  {
    if x.ready == y.ready {
      LessAsymmetric(x.key, y.key);
    }
  }
}

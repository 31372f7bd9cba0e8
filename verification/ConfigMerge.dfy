/**
 The three-way text merge of operator configuration. An edit script is what a line matcher
 reports: replaced ranges of the base in order, with an untouched line between any two.
 */
module ConfigMerge {
  import opened Wrappers

  type Line = string
  type Text = seq<Line>

  datatype Edit = Edit(start: int, end: int, text: Text)

  datatype Refusal = Conflict

  predicate Fits(es: seq<Edit>, n: int) {
    forall i | 0 <= i < |es| :: 0 <= es[i].start <= es[i].end <= n
  }

  // None reaches into the next.
  predicate Stacked(es: seq<Edit>) {
    forall i, j | 0 <= i < j < |es| :: es[i].end <= es[j].start
  }

  predicate InOrder(es: seq<Edit>) {
    Stacked(es) && forall i, j | 0 <= i < j < |es| :: es[i].start < es[j].start
  }

  // What the edits make of a text: each replaces its range, everything else stays.
  function Apply(base: Text, es: seq<Edit>): Text
    requires Fits(es, |base|) && Stacked(es)
    decreases |es|
  {
    if es == [] then base
    else
      var k := |es| - 1;
      var e := es[k];
      Apply(base[..e.start], es[..k]) + e.text + base[e.end..]
  }

  // No edits leave the text as it is; an edit puts its own lines for its range, behind what
  // the edits before it make of the text up to it, and the rest stays.
  lemma AppliedIs(base: Text, es: seq<Edit>, e: Edit)
    requires Fits(es + [e], |base|) && Stacked(es + [e])
    ensures 0 <= e.start <= e.end <= |base| && Fits(es, e.start) && Stacked(es)
    ensures Apply(base, []) == base
    ensures Apply(base, es + [e]) == Apply(base[..e.start], es) + e.text + base[e.end..]
  {
    var all := es + [e];
    assert all[..|es|] == es && all[|es|] == e;
    forall i | 0 <= i < |es| ensures 0 <= es[i].start <= es[i].end <= e.start {
      assert all[i] == es[i];
    }
    forall i, j | 0 <= i < j < |es| ensures es[i].end <= es[j].start {
      assert all[i] == es[i] && all[j] == es[j];
    }
  }

  predicate Script(base: Text, text: Text, es: seq<Edit>) {
    && Fits(es, |base|)
    && (forall i | 0 <= i < |es| :: es[i].start < es[i].end || es[i].text != [])
    && (forall i, j | 0 <= i < j < |es| :: es[i].end < es[j].start)
    && InOrder(es) && Apply(base, es) == text
  }

  // ------------------------------------------------------------------ conflicts

  predicate Overlap(x: Edit, y: Edit) {
    (if x.start > y.start then x.start else y.start) < (if x.end < y.end then x.end else y.end)
  }

  predicate InsertsInto(x: Edit, y: Edit) {
    x.start == x.end && y.start <= x.start <= y.end
  }

  predicate Touch(x: Edit, y: Edit) {
    Overlap(x, y) || InsertsInto(x, y) || InsertsInto(y, x)
  }

  // Changes of the right side that the left side did not make as well, each against the left.
  predicate Conflicting(left: seq<Edit>, right: seq<Edit>) {
    exists y | y in right && y !in left :: exists x | x in left :: Touch(y, x)
  }

  predicate Replaces(x: Edit, i: int) {
    x.start <= i && i < x.end
  }

  // Both replace some line, or one inserts within the other's range or at one of its ends.
  ghost predicate Meet(x: Edit, y: Edit) {
    || (exists i :: Replaces(x, i) && Replaces(y, i))
    || (x.start == x.end && y.start <= x.start && x.start <= y.end)
    || (y.start == y.end && x.start <= y.start && y.start <= x.end)
  }

  lemma TouchIff(x: Edit, y: Edit)
    ensures Touch(x, y) <==> Meet(x, y)
  {
    if Overlap(x, y) {
      var i := if x.start > y.start then x.start else y.start;
      assert Replaces(x, i) && Replaces(y, i);
    }
  }

  lemma TouchIsSymmetric(x: Edit, y: Edit)
    ensures Touch(x, y) == Touch(y, x)
  {}

  lemma ApartMeansOrdered(x: Edit, y: Edit)
    requires x.start <= x.end && y.start <= y.end && !Touch(x, y)
    ensures (x.start < y.start && x.end <= y.start) || (y.start < x.start && y.end <= x.start)
  {}

  // Swapping the sides changes nothing about whether they conflict.
  lemma ConflictIsSymmetric(base: Text, l: Text, r: Text, left: seq<Edit>, right: seq<Edit>)
    requires Script(base, l, left) && Script(base, r, right)
    ensures Conflicting(left, right) <==> Conflicting(right, left)
  {
    if Conflicting(left, right) {
      ConflictSwaps(base, l, r, left, right);
    }
    if Conflicting(right, left) {
      ConflictSwaps(base, r, l, right, left);
    }
  }

  lemma ConflictSwaps(base: Text, l: Text, r: Text, left: seq<Edit>, right: seq<Edit>)
    requires Script(base, l, left) && Script(base, r, right) && Conflicting(left, right)
    ensures Conflicting(right, left)
  {
    var y, x :| y in right && y !in left && x in left && Touch(y, x);
    TouchIsSymmetric(x, y);
    if x in right {
      OwnEditsApart(base, r, right, x, y);
    }
  }

  lemma OwnEditsApart(base: Text, text: Text, es: seq<Edit>, x: Edit, y: Edit)
    requires Script(base, text, es) && x in es && y in es && x != y
    ensures !Touch(x, y)
  {
    var i :| 0 <= i < |es| && es[i] == x;
    var j :| 0 <= j < |es| && es[j] == y;
    assert es[i].start <= es[i].end && es[j].start <= es[j].end;
  }

  // ------------------------------------------------------------------ both scripts at once

  function AsSet(es: seq<Edit>): set<Edit> {
    set e | e in es
  }

  // The edits of a set in the order of the text. There is one way at most.
  ghost predicate Arranges(c: seq<Edit>, s: set<Edit>) {
    InOrder(c) && AsSet(c) == s
  }

  lemma {:induction false} ArrangementUnique(c: seq<Edit>, d: seq<Edit>, s: set<Edit>)
    requires Arranges(c, s) && Arranges(d, s)
    ensures c == d
  {
    assert c != [] ==> c[0] in AsSet(c);
    assert d != [] ==> d[0] in AsSet(d);
    if c != [] && d != [] {
      var e, f := c[|c| - 1], d[|d| - 1];
      LastIsGreatest(c, s, f);
      LastIsGreatest(d, s, e);
      var c', d' := c[..|c| - 1], d[..|d| - 1];
      FrontArranges(c, s);
      FrontArranges(d, s);
      ArrangementUnique(c', d', s - {e});
      assert c == c' + [e] && d == d' + [f];
    }
  }

  lemma LastIsGreatest(c: seq<Edit>, s: set<Edit>, e: Edit)
    requires Arranges(c, s) && c != [] && e in s
    ensures e.start <= c[|c| - 1].start && (e.start == c[|c| - 1].start ==> e == c[|c| - 1])
  {
    assert e in c;
  }

  lemma FrontArranges(c: seq<Edit>, s: set<Edit>)
    requires Arranges(c, s) && c != []
    ensures Arranges(c[..|c| - 1], s - {c[|c| - 1]})
  {
    var c', e := c[..|c| - 1], c[|c| - 1];
    assert c == c' + [e];
    forall x ensures x in AsSet(c') <==> x in s - {e} {
      if x in s - {e} {
        assert x in c;
      }
      if x in c' {
        assert x in c;
      }
    }
  }

  // ------------------------------------------------------------------ one script after the other

  function Growth(e: Edit): int {
    |e.text| - (e.end - e.start)
  }

  // How far the edits that end by `pos` move what follows them.
  function Shift(es: seq<Edit>, pos: int): int {
    if es == [] then 0
    else Shift(es[..|es| - 1], pos) + (if es[|es| - 1].end <= pos then Growth(es[|es| - 1]) else 0)
  }

  lemma {:induction false} ApplyLength(base: Text, es: seq<Edit>, pos: int)
    requires Fits(es, |base|) && Stacked(es) && Fits(es, pos)
    ensures |Apply(base, es)| == |base| + Shift(es, pos)
    decreases |es|
  {
    if es != [] {
      var e := es[|es| - 1];
      ApplyLength(base[..e.start], es[..|es| - 1], pos);
    }
  }

  // Edits that all end by k leave what follows k alone.
  lemma {:induction false} ApplySplit(base: Text, es: seq<Edit>, k: nat)
    requires Fits(es, k) && Stacked(es) && k <= |base|
    ensures Fits(es, |base|)
    ensures Apply(base, es) == Apply(base[..k], es) + base[k..]
    decreases |es|
  {
    if es != [] {
      var e := es[|es| - 1];
      assert base[..k][..e.start] == base[..e.start];
      assert base[e.end..] == base[..k][e.end..] + base[k..];
    }
  }

  // An edit behind all of es, made after them at its new place.
  lemma ApplyMoved(base: Text, es: seq<Edit>, e: Edit, more: seq<Edit>)
    requires 0 <= e.start <= e.end <= |base| && Fits(es, e.start) && Stacked(es)
    requires Fits(more, |Apply(base[..e.start], es)|) && Stacked(more)
    ensures var d := Shift(es, e.start);
      var all := more + [Edit(e.start + d, e.end + d, e.text)];
      && Fits(all, |Apply(base, es)|) && Stacked(all)
      && Apply(Apply(base, es), all) == Apply(Apply(base[..e.start], es), more) + e.text + base[e.end..]
  {
    var x, text, d := Apply(base[..e.start], es), Apply(base, es), Shift(es, e.start);
    ApplySplit(base, es, e.start);
    ApplyLength(base[..e.start], es, e.start);
    var all := more + [Edit(e.start + d, e.end + d, e.text)];
    assert all[..|more|] == more;
    assert text[..|x|] == x && text[e.end + d..] == base[e.end..];
  }

  // Edits before e, made after it.
  lemma ApplyUnmoved(base: Text, es: seq<Edit>, e: Edit, more: seq<Edit>)
    requires 0 <= e.start <= e.end <= |base| && Fits(es, e.start) && Stacked(es)
    requires Fits(more, |Apply(base[..e.start], es)|) && Stacked(more)
    ensures Fits(es + [e], |base|) && Stacked(es + [e]) && Fits(more, |Apply(base, es + [e])|)
    ensures Apply(Apply(base, es + [e]), more) == Apply(Apply(base[..e.start], es), more) + e.text + base[e.end..]
  {
    var y, z := Apply(base[..e.start], es), e.text + base[e.end..];
    ApplyLast(base, es, e);
    hide Stacked, Fits;
    ApplySplit(y + z, more, |y|);
    assert (y + z)[..|y|] == y && (y + z)[|y|..] == z;
    FitsWithin(more, |y|, |y + z|);
  }

  lemma FitsWithin(es: seq<Edit>, n: int, m: int)
    requires Fits(es, n) && n <= m
    ensures Fits(es, m)
  {}

  lemma ApplyLast(base: Text, es: seq<Edit>, e: Edit)
    requires 0 <= e.start <= e.end <= |base| && Fits(es, e.start) && Stacked(es)
    ensures Fits(es + [e], |base|) && Stacked(es + [e])
    ensures Apply(base, es + [e]) == Apply(base[..e.start], es) + (e.text + base[e.end..])
  {
    var all := es + [e];
    assert Stacked(all) by {
      forall i, j | 0 <= i < j < |all| ensures all[i].end <= all[j].start {
        assert all[i] == es[i];
      }
    }
    assert all[..|es|] == es && all[|es|] == e;
    hide Stacked;
    assert Apply(base, all) == Apply(base[..e.start], es) + e.text + base[e.end..];
  }

  // Edits as they read in the text the left edits produced.
  function Rebase(es: seq<Edit>, left: seq<Edit>): seq<Edit> {
    if es == [] then []
    else
      var e := es[|es| - 1];
      var d := Shift(left, e.start);
      Rebase(es[..|es| - 1], left) + [Edit(e.start + d, e.end + d, e.text)]
  }

  lemma LastAmong(c: seq<Edit>, es: seq<Edit>)
    requires c != [] && InOrder(c) && InOrder(es) && AsSet(es) <= AsSet(c) && c[|c| - 1] in es
    ensures es != [] && es[|es| - 1] == c[|c| - 1]
  {
    var e := es[|es| - 1];
    assert e in AsSet(es);
    var i :| 0 <= i < |c| && c[i] == e;
    var j :| 0 <= j < |es| && es[j] == c[|c| - 1];
  }

  lemma FitsMember(es: seq<Edit>, n: int, e: Edit)
    requires Fits(es, n) && e in es
    ensures 0 <= e.start <= e.end <= n
  {}

  // The edits of two scripts in one order, none of them in both.
  ghost predicate Interleaves(c: seq<Edit>, left: seq<Edit>, more: seq<Edit>, n: int) {
    && InOrder(left) && InOrder(more) && AsSet(left) !! AsSet(more)
    && Arranges(c, AsSet(left) + AsSet(more)) && Fits(c, n)
  }

  lemma InterleavesFits(c: seq<Edit>, left: seq<Edit>, more: seq<Edit>, n: int)
    requires Interleaves(c, left, more, n)
    ensures Fits(left, n) && Fits(more, n)
    ensures c == [] ==> left == [] && more == []
  {
    assert left != [] ==> left[0] in AsSet(c);
    assert more != [] ==> more[0] in AsSet(c);
    forall i | 0 <= i < |left| ensures c != [] && 0 <= left[i].start <= left[i].end <= n {
      assert left[i] in AsSet(c);
      FitsMember(c, n, left[i]);
    }
    forall i | 0 <= i < |more| ensures c != [] && 0 <= more[i].start <= more[i].end <= n {
      assert more[i] in AsSet(c);
      FitsMember(c, n, more[i]);
    }
  }

  lemma InterleavesSwap(c: seq<Edit>, left: seq<Edit>, more: seq<Edit>, n: int)
    requires Interleaves(c, left, more, n)
    ensures Interleaves(c, more, left, n)
  {
    assert AsSet(left) + AsSet(more) == AsSet(more) + AsSet(left);
  }

  lemma WithoutLast(c: seq<Edit>, left: seq<Edit>, more: seq<Edit>, n: int)
    requires Interleaves(c, left, more, n) && c != [] && c[|c| - 1] in more
    ensures more != [] && more[|more| - 1] == c[|c| - 1]
    ensures Interleaves(c[..|c| - 1], left, more[..|more| - 1], c[|c| - 1].start)
  {
    var e := c[|c| - 1];
    LastAmong(c, more);
    FrontArranges(c, AsSet(left) + AsSet(more));
    FrontArranges(more, AsSet(more));
    assert AsSet(left) + AsSet(more) - {e} == AsSet(left) + (AsSet(more) - {e});
  }

  lemma {:induction false} RebaseKeeps(es: seq<Edit>, left: seq<Edit>, e: Edit)
    requires forall i | 0 <= i < |es| :: es[i].start < e.end
    ensures Rebase(es, left + [e]) == Rebase(es, left)
  {
    if es != [] {
      assert (left + [e])[..|left|] == left;
      RebaseKeeps(es[..|es| - 1], left, e);
    }
  }

  ghost predicate Rebased(base: Text, c: seq<Edit>, left: seq<Edit>, more: seq<Edit>)
    requires Fits(c, |base|) && Stacked(c)
  {
    && Fits(left, |base|) && Stacked(left)
    && Fits(Rebase(more, left), |Apply(base, left)|) && Stacked(Rebase(more, left))
    && Apply(Apply(base, left), Rebase(more, left)) == Apply(base, c)
  }

  // Making the left edits and then the others where they have moved to is making them all.
  lemma {:induction false} RebaseIsBoth(base: Text, c: seq<Edit>, left: seq<Edit>, more: seq<Edit>)
    requires Interleaves(c, left, more, |base|)
    ensures Rebased(base, c, left, more)
    decreases |c|
  {
    InterleavesFits(c, left, more, |base|);
    if c != [] {
      var e := c[|c| - 1];
      assert e in AsSet(c);
      hide Rebased;
      if e in more {
        WithoutLast(c, left, more, |base|);
        RebaseIsBoth(base[..e.start], c[..|c| - 1], left, more[..|more| - 1]);
        RebasedRight(base, c, left, more);
      } else {
        InterleavesSwap(c, left, more, |base|);
        WithoutLast(c, more, left, |base|);
        InterleavesSwap(c[..|c| - 1], more, left[..|left| - 1], e.start);
        RebaseIsBoth(base[..e.start], c[..|c| - 1], left[..|left| - 1], more);
        BeforeLast(c, more);
        RebasedLeft(base, c, left, more);
      }
    }
  }

  lemma RebasedRight(base: Text, c: seq<Edit>, left: seq<Edit>, more: seq<Edit>)
    requires Fits(c, |base|) && Stacked(c) && c != [] && more != [] && more[|more| - 1] == c[|c| - 1]
    requires Fits(left, c[|c| - 1].start)
    requires Rebased(base[..c[|c| - 1].start], c[..|c| - 1], left, more[..|more| - 1])
    ensures Rebased(base, c, left, more)
  {
    hide Rebase, Shift;
    RebaseLast(more, left);
    ApplyMoved(base, left, c[|c| - 1], Rebase(more[..|more| - 1], left));
  }

  lemma {:induction false} RebaseLast(es: seq<Edit>, left: seq<Edit>)
    requires es != []
    ensures var e := es[|es| - 1];
      var d := Shift(left, e.start);
      Rebase(es, left) == Rebase(es[..|es| - 1], left) + [Edit(e.start + d, e.end + d, e.text)]
  {
    hide Shift;
  }

  lemma RebasedLeft(base: Text, c: seq<Edit>, left: seq<Edit>, more: seq<Edit>)
    requires Fits(c, |base|) && Stacked(c) && c != [] && left != [] && left[|left| - 1] == c[|c| - 1]
    requires Fits(left[..|left| - 1], c[|c| - 1].start)
    requires forall i | 0 <= i < |more| :: more[i].start < c[|c| - 1].end
    requires Rebased(base[..c[|c| - 1].start], c[..|c| - 1], left[..|left| - 1], more)
    ensures Rebased(base, c, left, more)
  {
    var e, left' := c[|c| - 1], left[..|left| - 1];
    assert left == left' + [e];
    RebaseKeeps(more, left', e);
    ApplyUnmoved(base, left', e, Rebase(more, left'));
  }

  lemma BeforeLast(c: seq<Edit>, es: seq<Edit>)
    requires c != [] && InOrder(c) && AsSet(es) <= AsSet(c) && c[|c| - 1] !in es && Fits(c, c[|c| - 1].end)
    ensures forall i | 0 <= i < |es| :: es[i].start < c[|c| - 1].end
  {
    forall i | 0 <= i < |es| ensures es[i].start < c[|c| - 1].end {
      assert es[i] in AsSet(es);
      var k :| 0 <= k < |c| && c[k] == es[i];
    }
  }

  // ------------------------------------------------------------------ the merge

  // The right side's own changes.
  function Unshared(right: seq<Edit>, left: seq<Edit>): seq<Edit> {
    if right == [] then []
    else
      var y := right[|right| - 1];
      Unshared(right[..|right| - 1], left) + (if y in left then [] else [y])
  }

  predicate Before(x: Edit, y: Edit) {
    x.start < y.start || (x.start == y.start && x.end <= y.end)
  }

  function Insert(es: seq<Edit>, e: Edit): seq<Edit> {
    if es == [] || Before(es[|es| - 1], e) then es + [e]
    else Insert(es[..|es| - 1], e) + [es[|es| - 1]]
  }

  function Sort(es: seq<Edit>): seq<Edit> {
    if es == [] then [] else Insert(Sort(es[..|es| - 1]), es[|es| - 1])
  }

  lemma SetOfMore(es: seq<Edit>, e: Edit)
    ensures AsSet(es + [e]) == AsSet(es) + {e}
  {}

  lemma AppendInOrder(es: seq<Edit>, e: Edit)
    requires InOrder(es)
    requires forall x | x in AsSet(es) :: x.end <= e.start && x.start < e.start
    ensures InOrder(es + [e])
  {
    forall i | 0 <= i < |es| ensures es[i].end <= e.start && es[i].start < e.start {
      assert es[i] in AsSet(es);
    }
  }

  ghost predicate ApartFrom(s: set<Edit>, e: Edit) {
    e.start <= e.end && forall x | x in s :: x.start <= x.end && !Touch(x, e)
  }

  lemma {:induction false} InsertKeepsOrder(es: seq<Edit>, e: Edit)
    requires InOrder(es) && ApartFrom(AsSet(es), e)
    ensures InOrder(Insert(es, e)) && AsSet(Insert(es, e)) == AsSet(es) + {e}
  {
    if es == [] || Before(es[|es| - 1], e) {
      SetOfMore(es, e);
      LastReaches(es, e);
      AppendInOrder(es, e);
    } else {
      var front, last := es[..|es| - 1], es[|es| - 1];
      InsertBehind(es, e);
      InsertBelow(es, e);
      SetOfMore(front, last);
      assert es == front + [last];
      hide Touch, InOrder, Insert, ApartFrom, AsSet;
      InsertKeepsOrder(front, e);
      SetOfMore(Insert(front, e), last);
      AppendInOrder(Insert(front, e), last);
    }
  }

  lemma InsertBelow(es: seq<Edit>, e: Edit)
    requires es != [] && InOrder(es) && ApartFrom(AsSet(es), e) && !Before(es[|es| - 1], e)
    ensures var front, last := es[..|es| - 1], es[|es| - 1];
      && InOrder(front) && ApartFrom(AsSet(front), e)
      && forall x | x in AsSet(front) + {e} :: x.end <= last.start && x.start < last.start
  {
    var front, last := es[..|es| - 1], es[|es| - 1];
    assert last in AsSet(es);
    ApartMeansOrdered(last, e);
    FrontBelow(es);
    forall x | x in front ensures x in AsSet(es) {}
  }

  lemma InsertBehind(es: seq<Edit>, e: Edit)
    requires es != [] && !Before(es[|es| - 1], e)
    ensures Insert(es, e) == Insert(es[..|es| - 1], e) + [es[|es| - 1]]
  {}

  lemma FrontBelow(es: seq<Edit>)
    requires InOrder(es) && es != []
    ensures InOrder(es[..|es| - 1])
    ensures var last := es[|es| - 1];
      forall x | x in AsSet(es[..|es| - 1]) :: x.end <= last.start && x.start < last.start
  {}

  lemma LastReaches(es: seq<Edit>, e: Edit)
    requires InOrder(es) && ApartFrom(AsSet(es), e) && (es == [] || Before(es[|es| - 1], e))
    ensures forall x | x in AsSet(es) :: x.end <= e.start && x.start < e.start
  {
    if es != [] {
      var last := es[|es| - 1];
      assert last in AsSet(es);
      ApartMeansOrdered(last, e);
      forall x | x in AsSet(es) ensures x.end <= e.start && x.start < e.start {
        var i :| 0 <= i < |es| && es[i] == x;
      }
    }
  }

  lemma SortInserts(es: seq<Edit>, y: Edit, s: set<Edit>)
    requires Arranges(Sort(es), s) && ApartFrom(s, y)
    ensures Arranges(Sort(es + [y]), s + {y})
  {
    InsertKeepsOrder(Sort(es), y);
    assert (es + [y])[..|es|] == es;
  }

  lemma EditsApart(base: Text, l: Text, r: Text, left: seq<Edit>, right: seq<Edit>, y: Edit)
    requires Script(base, l, left) && Script(base, r, right) && !Conflicting(left, right)
    requires y in right && y !in left
    ensures y.start <= y.end
    ensures forall x | x in left :: x.start <= x.end && !Touch(x, y)
    ensures forall x | x in right && x != y :: x.start <= x.end && !Touch(x, y)
  {
    FitsMember(right, |base|, y);
    forall x | x in left ensures x.start <= x.end && !Touch(x, y) {
      FitsMember(left, |base|, x);
      TouchIsSymmetric(x, y);
    }
    forall x | x in right && x != y ensures x.start <= x.end && !Touch(x, y) {
      FitsMember(right, |base|, x);
      OwnEditsApart(base, r, right, x, y);
    }
  }

  lemma UnsharedLast(right: seq<Edit>, left: seq<Edit>, n: nat)
    requires n < |right|
    ensures Unshared(right[..n + 1], left) == Unshared(right[..n], left) + (if right[n] in left then [] else [right[n]])
  {
    assert right[..n + 1][..n] == right[..n];
  }

  // All edits of two scripts, ready to be made in one go.
  lemma {:induction false} SortArranges(base: Text, l: Text, r: Text, left: seq<Edit>, right: seq<Edit>, n: nat)
    requires Script(base, l, left) && Script(base, r, right) && !Conflicting(left, right) && n <= |right|
    ensures Arranges(Sort(left + Unshared(right[..n], left)), AsSet(left) + AsSet(Unshared(right[..n], left)))
  {
    hide Script, Conflicting, Touch, InOrder, Arranges, Sort;
    if n == 0 {
      assert left + Unshared(right[..0], left) == left;
      SortedScript(base, l, left);
    } else {
      SortArranges(base, l, r, left, right, n - 1);
      UnsharedLast(right, left, n - 1);
      var y, own := right[n - 1], Unshared(right[..n - 1], left);
      if y in left {
        assert own + [] == own;
      } else {
        SortAddsOwn(base, l, r, left, right, n - 1);
      }
    }
  }

  lemma OwnApart(base: Text, l: Text, r: Text, left: seq<Edit>, right: seq<Edit>, n: nat)
    requires Script(base, l, left) && Script(base, r, right) && !Conflicting(left, right)
    requires n < |right| && right[n] !in left
    ensures ApartFrom(AsSet(left) + AsSet(Unshared(right[..n], left)), right[n])
  {
    EditsApart(base, l, r, left, right, right[n]);
    UnsharedIn(right[..n], left);
    ScriptDistinct(base, r, right, n);
    hide Script, Conflicting, Touch, Unshared;
    forall x | x in AsSet(left) + AsSet(Unshared(right[..n], left)) ensures x in left || (x in right && x != right[n]) {}
  }

  lemma SortAddsOwn(base: Text, l: Text, r: Text, left: seq<Edit>, right: seq<Edit>, n: nat)
    requires Script(base, l, left) && Script(base, r, right) && !Conflicting(left, right)
    requires n < |right| && right[n] !in left
    requires Arranges(Sort(left + Unshared(right[..n], left)), AsSet(left) + AsSet(Unshared(right[..n], left)))
    ensures var own := Unshared(right[..n], left) + [right[n]];
      Arranges(Sort(left + own), AsSet(left) + AsSet(own))
  {
    hide Script, Conflicting, Touch, InOrder, Arranges, Sort, Unshared, ApartFrom;
    var y, own := right[n], Unshared(right[..n], left);
    OwnApart(base, l, r, left, right, n);
    SortInserts(left + own, y, AsSet(left) + AsSet(own));
    SetOfMore(own, y);
    assert left + (own + [y]) == left + own + [y];
    assert AsSet(left) + (AsSet(own) + {y}) == AsSet(left) + AsSet(own) + {y};
  }

  lemma ScriptDistinct(base: Text, text: Text, es: seq<Edit>, k: nat)
    requires Script(base, text, es) && k < |es|
    ensures es[k] !in es[..k]
  {}

  lemma SortedScript(base: Text, text: Text, es: seq<Edit>)
    requires Script(base, text, es)
    ensures Arranges(Sort(es), AsSet(es) + AsSet([]))
  {
    SortInOrder(es);
    assert AsSet(es) + AsSet([]) == AsSet(es);
  }

  lemma UnsharedIn(right: seq<Edit>, left: seq<Edit>)
    ensures forall x :: x in Unshared(right, left) <==> x in right && x !in left
  {}

  lemma LastTwo(es: seq<Edit>)
    requires InOrder(es) && es != []
    ensures InOrder(es[..|es| - 1])
    ensures |es| > 1 ==> Before(es[..|es| - 1][|es| - 2], es[|es| - 1])
  {}

  lemma InsertLast(es: seq<Edit>, e: Edit)
    requires es != [] ==> Before(es[|es| - 1], e)
    ensures Insert(es, e) == es + [e]
  {}

  lemma {:induction false} SortInOrder(es: seq<Edit>)
    requires InOrder(es)
    ensures Sort(es) == es
  {
    if es != [] {
      var front, e := es[..|es| - 1], es[|es| - 1];
      LastTwo(es);
      hide InOrder, Insert, Before;
      SortInOrder(front);
      InsertLast(front, e);
      assert Sort(es) == Insert(Sort(front), e);
    }
  }

  lemma BothInOrder(base: Text, l: Text, r: Text, left: seq<Edit>, right: seq<Edit>)
    requires Script(base, l, left) && Script(base, r, right) && !Conflicting(left, right)
    ensures var c := Sort(left + Unshared(right, left));
      Interleaves(c, left, Unshared(right, left), |base|) && Arranges(c, AsSet(left) + AsSet(right))
  {
    var own := Unshared(right, left);
    var c := Sort(left + own);
    assert right[..|right|] == right;
    SortArranges(base, l, r, left, right, |right|);
    UnsharedIn(right, left);
    assert AsSet(left) + AsSet(own) == AsSet(left) + AsSet(right);
    UnsharedInOrder(right, left);
    forall i | 0 <= i < |c| ensures 0 <= c[i].start <= c[i].end <= |base| {
      assert c[i] in AsSet(c);
      if c[i] in left {
        FitsMember(left, |base|, c[i]);
      } else {
        FitsMember(right, |base|, c[i]);
      }
    }
  }

  lemma {:induction false} UnsharedInOrder(right: seq<Edit>, left: seq<Edit>)
    requires InOrder(right)
    ensures InOrder(Unshared(right, left))
  {
    if right != [] {
      var front, y := right[..|right| - 1], right[|right| - 1];
      UnsharedInOrder(front, left);
      FrontBelow(right);
      UnsharedIn(front, left);
      if y !in left {
        AppendInOrder(Unshared(front, left), y);
      }
    }
  }

  function MergeScripts(base: Text, l: Text, r: Text, left: seq<Edit>, right: seq<Edit>): Result<Text, Refusal>
    requires Script(base, l, left) && Script(base, r, right)
  {
    if Conflicting(left, right) then Err(Conflict)
    else
      BothInOrder(base, l, r, left, right);
      Ok(Apply(base, Sort(left + Unshared(right, left))))
  }

  function Merged(base: Text, local: Text, incoming: Text, left: seq<Edit>, right: seq<Edit>): Result<Text, Refusal>
    requires Script(base, local, left) && Script(base, incoming, right)
  {
    if local == base || local == incoming then Ok(incoming)
    else if incoming == base then Ok(local)
    else MergeScripts(base, local, incoming, left, right)
  }

  // ------------------------------------------------------------------ what the merge promises

  // A side that changed nothing gives way to the other, and sides that agree are the result.
  lemma OneSidedMerges(base: Text, other: Text, left: seq<Edit>, right: seq<Edit>)
    requires Script(base, other, right) && Script(base, base, left)
    ensures Merged(base, base, other, left, right) == Ok(other)
    ensures Merged(base, other, base, right, left) == Ok(other)
    ensures Merged(base, other, other, right, right) == Ok(other)
  {}

  // A merge of sides that both changed, and differ, is refused if and only if an edit that
  // only the upstream made touches one of the operator's.
  lemma RefusedIff(base: Text, local: Text, incoming: Text, left: seq<Edit>, right: seq<Edit>)
    requires Script(base, local, left) && Script(base, incoming, right)
    requires local != base && incoming != base && local != incoming
    ensures Merged(base, local, incoming, left, right).Err? <==>
              exists y, x | y in right && y !in left && x in left :: Meet(y, x)
  {
    forall y, x | y in right && x in left ensures Touch(y, x) <==> Meet(y, x) {
      TouchIff(y, x);
    }
    assert Merged(base, local, incoming, left, right).Err? <==> Conflicting(left, right);
    hide Script, Merged, Touch, Meet;
  }

  // An unrefused merge is the local edits made first and the upstream ones where they have
  // moved to, and it is the upstream edits first and the local ones where they have moved to.
  lemma MergeIsEitherOrder(base: Text, l: Text, r: Text, left: seq<Edit>, right: seq<Edit>)
    requires Script(base, l, left) && Script(base, r, right) && !Conflicting(left, right)
    ensures var own, upstream := Rebase(Unshared(left, right), right), Rebase(Unshared(right, left), left);
      && Fits(upstream, |l|) && Stacked(upstream) && Fits(own, |r|) && Stacked(own)
      && MergeScripts(base, l, r, left, right) == Ok(Apply(l, upstream)) == Ok(Apply(r, own))
  {
    ConflictIsSymmetric(base, l, r, left, right);
    BothInOrder(base, l, r, left, right);
    BothInOrder(base, r, l, right, left);
    RebaseIsBoth(base, Sort(left + Unshared(right, left)), left, Unshared(right, left));
    RebaseIsBoth(base, Sort(right + Unshared(left, right)), right, Unshared(left, right));
    SameEdits(base, l, r, left, right);
  }

  lemma SameEdits(base: Text, l: Text, r: Text, left: seq<Edit>, right: seq<Edit>)
    requires Script(base, l, left) && Script(base, r, right) && !Conflicting(left, right) && !Conflicting(right, left)
    ensures Sort(left + Unshared(right, left)) == Sort(right + Unshared(left, right))
  {
    BothInOrder(base, l, r, left, right);
    BothInOrder(base, r, l, right, left);
    assert AsSet(left) + AsSet(right) == AsSet(right) + AsSet(left);
    ArrangementUnique(Sort(left + Unshared(right, left)), Sort(right + Unshared(left, right)), AsSet(left) + AsSet(right));
  }

  // Swapping the sides changes neither the text nor whether there is one.
  lemma MergeIsSymmetric(base: Text, local: Text, incoming: Text, left: seq<Edit>, right: seq<Edit>)
    requires Script(base, local, left) && Script(base, incoming, right)
    ensures Merged(base, local, incoming, left, right) == Merged(base, incoming, local, right, left)
  {
    ConflictIsSymmetric(base, local, incoming, left, right);
    if !Conflicting(left, right) {
      SameEdits(base, local, incoming, left, right);
    }
  }

  // The shortcuts give what the scripts would: equal texts have an empty script, and two
  // equal texts the same one.
  lemma ShortcutsAgree(base: Text, local: Text, incoming: Text, left: seq<Edit>, right: seq<Edit>)
    requires Script(base, local, left) && Script(base, incoming, right)
    requires (local == base ==> left == []) && (incoming == base ==> right == []) && (local == incoming ==> left == right)
    ensures Merged(base, local, incoming, left, right) == MergeScripts(base, local, incoming, left, right)
  {
    UnsharedIn(right, left);
    assert Unshared(right, left) != [] ==> Unshared(right, left)[0] !in left;
    if left == right {
      assert left + Unshared(right, left) == left;
      SortInOrder(left);
    } else if left == [] {
      NothingShared(right);
      assert left + Unshared(right, left) == right;
      SortInOrder(right);
    } else if right == [] {
      assert left + Unshared(right, left) == left;
      SortInOrder(left);
    }
  }

  lemma {:induction false} NothingShared(right: seq<Edit>)
    ensures Unshared(right, []) == right
  {
    if right != [] {
      NothingShared(right[..|right| - 1]);
    }
  }

  // ------------------------------------------------------------------ the loops

  // One splice of the list leaves the same text to make with the edits before it.
  lemma SpliceStep(lines: Text, c: seq<Edit>, k: nat)
    requires 0 < k <= |c| && InOrder(c) && Fits(c[..k], |lines|)
    ensures var e := c[k - 1];
      var next := lines[..e.start] + e.text + lines[e.end..];
      Fits(c[..k - 1], |next|) && Apply(next, c[..k - 1]) == Apply(lines, c[..k])
  {
    var e, es := c[k - 1], c[..k - 1];
    assert c[..k] == es + [e];
    assert Fits(es, e.start) && Stacked(es) by {
      assert forall i | 0 <= i < k - 1 :: c[..k][i] == c[i] && c[i].end <= c[k - 1].start;
    }
    assert 0 <= e.start <= e.end <= |lines| by {
      assert c[..k][k - 1] == e;
    }
    hide Stacked, InOrder, Fits;
    var next := lines[..e.start] + e.text + lines[e.end..];
    ApplyLast(lines, es, e);
    ApplySplit(next, es, e.start);
    assert next[..e.start] == lines[..e.start];
    assert next[e.start..] == e.text + lines[e.end..];
  }

  // Conflicts are looked for change by change; then the list is spliced in place from the
  // last edit to the first, so that no splice moves an edit still to be made.
  method Merge(base: Text, local: Text, incoming: Text, left: seq<Edit>, right: seq<Edit>)
    returns (r: Result<Text, Refusal>)
    requires Script(base, local, left) && Script(base, incoming, right)
    ensures r == Merged(base, local, incoming, left, right)
  {
    if local == base || local == incoming {
      return Ok(incoming);
    }
    if incoming == base {
      return Ok(local);
    }
    hide Script, Conflicting;
    var combined := Combine(base, incoming, left, right);
    if combined.None? {
      return Err(Conflict);
    }
    var c := Sort(combined.value);
    BothInOrder(base, local, incoming, left, right);
    var lines := Splice(base, c);
    return Ok(lines);
  }

  // The left script with what the right one has of its own; None if they conflict.
  method Combine(base: Text, incoming: Text, left: seq<Edit>, right: seq<Edit>) returns (combined: Option<seq<Edit>>)
    requires Script(base, incoming, right)
    ensures combined.None? <==> Conflicting(left, right)
    ensures combined.Some? ==> combined.value == left + Unshared(right, left)
  {
    hide Script, Conflicting, Touch;
    assert !Conflicting(left, right[..0]) by {
      NoConflictYet(left);
    }
    var all := left;
    for i := 0 to |right|
      invariant all == left + Unshared(right[..i], left)
      invariant !Conflicting(left, right[..i])
    {
      var change := right[i];
      assert right[..i + 1][..i] == right[..i];
      ScriptDistinct(base, incoming, right, i);
      UnsharedIn(right[..i], left);
      ConflictingLast(left, right, i);
      if change !in all {
        var touches := FindTouching(change, left);
        if touches {
          return None;
        }
        all := all + [change];
      }
    }
    assert right[..|right|] == right;
    return Some(all);
  }

  lemma NoConflictYet(left: seq<Edit>)
    ensures !Conflicting(left, [])
  {}

  lemma ConflictingLast(left: seq<Edit>, right: seq<Edit>, n: nat)
    requires n < |right|
    ensures Conflicting(left, right[..n + 1])
            <==> Conflicting(left, right[..n]) || (right[n] !in left && exists x | x in left :: Touch(right[n], x))
    ensures Conflicting(left, right[..n + 1]) ==> Conflicting(left, right)
  {
    assert right[..n + 1] == right[..n] + [right[n]];
  }

  method FindTouching(change: Edit, left: seq<Edit>) returns (found: bool)
    ensures found <==> exists x | x in left :: Touch(change, x)
  {
    for k := 0 to |left|
      invariant forall m | 0 <= m < k :: !Touch(change, left[m])
    {
      if Overlap(change, left[k]) || InsertsInto(change, left[k]) || InsertsInto(left[k], change) {
        assert left[k] in left;
        return true;
      }
    }
    return false;
  }

  method Splice(base: Text, c: seq<Edit>) returns (lines: Text)
    requires Fits(c, |base|) && InOrder(c)
    ensures lines == Apply(base, c)
  {
    lines := base;
    var k := |c|;
    assert c[..k] == c;
    while k > 0
      invariant 0 <= k <= |c| && Fits(c[..k], |lines|) && Apply(lines, c[..k]) == Apply(base, c)
    {
      SpliceStep(lines, c, k);
      k := k - 1;
      assert c[..k + 1][k] == c[k];
      lines := lines[..c[k].start] + c[k].text + lines[c[k].end..];
    }
  }
}

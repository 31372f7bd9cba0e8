/**
 The contact table and its change feed. One counter numbers every change of a row; a reader
 that has seen all changes up to some number catches up by the rows with a later one.
 */
module ContactStore {
  import opened Wrappers

  datatype Key = Key(source: string, id: string)

  datatype Row = Row(kind: string, name: Option<string>, person: Option<string>, firstSeen: int, lastSeen: int,
                     deleted: bool, version: nat)

  // What the feed tells of a row.
  datatype View = View(kind: string, name: Option<string>, person: Option<string>, deleted: bool)

  datatype Item = Item(id: string, kind: string, name: Option<string>)

  datatype Change = Change(id: string, view: View, version: nat)

  type Rows = map<Key, Row>

  function ViewOf(r: Row): View {
    View(r.kind, r.name, r.person, r.deleted)
  }

  // Two rows are told alike if and only if they have the same kind, name and person, and are
  // both there or both deleted.
  lemma ViewSays(r: Row, x: Row)
    ensures ViewOf(r) == ViewOf(x) <==>
              r.kind == x.kind && r.name == x.name && r.person == x.person && r.deleted == x.deleted
    ensures var v := ViewOf(r);
      v.kind == r.kind && v.name == r.name && v.person == r.person && v.deleted == r.deleted
  {}

  // No two rows share a version, and none is ahead of the counter.
  ghost predicate Numbered(rows: Rows, sequence: nat) {
    && (forall k | k in rows :: rows[k].version <= sequence)
    && (forall k, x | k in rows && x in rows && k != x :: rows[k].version != rows[x].version)
  }

  // Every row there was is there, and either says the same or has a number given out since.
  ghost predicate Extends(rows: Rows, sequence: nat, rows': Rows, sequence': nat) {
    && sequence <= sequence'
    && (forall k | k in rows :: k in rows')
    && (forall k | k in rows' ::
          rows'[k].version > sequence
          || (k in rows && rows[k].version == rows'[k].version && ViewOf(rows[k]) == ViewOf(rows'[k])))
  }

  lemma ExtendsTransitively(a: Rows, i: nat, b: Rows, j: nat, c: Rows, k: nat)
    requires Extends(a, i, b, j) && Extends(b, j, c, k)
    ensures Extends(a, i, c, k)
  {}

  // A change takes the next number.
  lemma ChangeExtends(rows: Rows, sequence: nat, k: Key, r: Row)
    requires Numbered(rows, sequence) && r.version == sequence + 1
    ensures Numbered(rows[k := r], sequence + 1) && Extends(rows, sequence, rows[k := r], sequence + 1)
  {}

  // ------------------------------------------------------------------ the feed

  // What a source's rows say.
  ghost predicate Reflects(copy: map<string, View>, rows: Rows, source: string) {
    && (forall id | id in copy :: Key(source, id) in rows && copy[id] == ViewOf(rows[Key(source, id)]))
    && (forall k | k in rows && k.source == source :: k.id in copy)
  }

  // The rows of a source behind a version, by version.
  ghost predicate IsFeed(feed: seq<Change>, rows: Rows, source: string, after: nat) {
    && (forall i, j | 0 <= i < j < |feed| :: feed[i].version < feed[j].version)
    && (forall i | 0 <= i < |feed| :: FromRow(feed[i], rows, source) && feed[i].version > after)
    && (forall k | k in rows && k.source == source && rows[k].version > after ::
          exists i :: 0 <= i < |feed| && feed[i] == Change(k.id, ViewOf(rows[k]), rows[k].version))
  }

  ghost predicate FromRow(c: Change, rows: Rows, source: string) {
    Key(source, c.id) in rows && c == Change(c.id, ViewOf(rows[Key(source, c.id)]), rows[Key(source, c.id)].version)
  }

  function Fold(copy: map<string, View>, feed: seq<Change>): map<string, View> {
    if feed == [] then copy else Fold(copy, feed[..|feed| - 1])[feed[|feed| - 1].id := feed[|feed| - 1].view]
  }

  lemma {:induction false} FoldedAt(copy: map<string, View>, feed: seq<Change>, rows: Rows, source: string)
    requires forall i | 0 <= i < |feed| :: FromRow(feed[i], rows, source)
    ensures forall id | id in Fold(copy, feed) ::
              if exists i :: 0 <= i < |feed| && feed[i].id == id
              then Key(source, id) in rows && Fold(copy, feed)[id] == ViewOf(rows[Key(source, id)])
              else id in copy && Fold(copy, feed)[id] == copy[id]
    ensures forall id | id in copy :: id in Fold(copy, feed)
    ensures forall i | 0 <= i < |feed| :: feed[i].id in Fold(copy, feed)
  {
    if feed != [] {
      var front, last := feed[..|feed| - 1], feed[|feed| - 1];
      FoldedAt(copy, front, rows, source);
      forall id | id in Fold(copy, feed) && id != last.id
        ensures (exists i :: 0 <= i < |feed| && feed[i].id == id) <==> exists i :: 0 <= i < |front| && front[i].id == id
      {
        if i :| 0 <= i < |feed| && feed[i].id == id {
          assert front[i].id == id;
        }
      }
    }
  }

  // A copy that agreed with the store when all of the source's rows were at or behind c
  // agrees with it now, once it has folded the feed behind c.
  lemma FeedCatchesUp(rows: Rows, sequence: nat, rows': Rows, sequence': nat, source: string, c: nat,
                      copy: map<string, View>, feed: seq<Change>)
    requires Extends(rows, sequence, rows', sequence') && Reflects(copy, rows, source) && c <= sequence
    requires forall k | k in rows && k.source == source :: rows[k].version <= c
    requires IsFeed(feed, rows', source, c)
    ensures Reflects(Fold(copy, feed), rows', source)
  {
    FoldedAt(copy, feed, rows', source);
    var folded := Fold(copy, feed);
    forall id | id in folded
      ensures Key(source, id) in rows' && folded[id] == ViewOf(rows'[Key(source, id)])
    {
      if !exists i :: 0 <= i < |feed| && feed[i].id == id {
        var k := Key(source, id);
        assert rows'[k].version <= c;
      }
    }
    forall k | k in rows' && k.source == source ensures k.id in folded {
      if rows'[k].version > c {
        var i :| 0 <= i < |feed| && feed[i] == Change(k.id, ViewOf(rows'[k]), rows'[k].version);
      } else {
        assert k in rows;
      }
    }
  }

  // The number to ask from next time: that of the last change in the feed, if there was one.
  function Cursor(c: nat, feed: seq<Change>): nat {
    if feed == [] then c else feed[|feed| - 1].version
  }

  lemma CursorKeepsUp(rows: Rows, sequence: nat, source: string, c: nat, feed: seq<Change>)
    requires Numbered(rows, sequence) && IsFeed(feed, rows, source, c) && c <= sequence
    ensures c <= Cursor(c, feed) <= sequence
    ensures forall k | k in rows && k.source == source :: rows[k].version <= Cursor(c, feed)
  {
    forall k | k in rows && k.source == source ensures rows[k].version <= Cursor(c, feed) {
      if rows[k].version > c {
        var i :| 0 <= i < |feed| && feed[i] == Change(k.id, ViewOf(rows[k]), rows[k].version);
      }
    }
    if feed != [] {
      assert FromRow(feed[|feed| - 1], rows, source);
    }
  }

  // ------------------------------------------------------------------ the store

  // What the last item for an id says.
  function Latest(seen: seq<Item>, id: string): Option<Item> {
    if seen == [] then None
    else if seen[|seen| - 1].id == id then Some(seen[|seen| - 1])
    else Latest(seen[..|seen| - 1], id)
  }

  lemma {:induction false} LatestIsThere(seen: seq<Item>, id: string)
    ensures Latest(seen, id).Some? <==> exists i :: 0 <= i < |seen| && seen[i].id == id
  {
    if seen != [] && seen[|seen| - 1].id != id {
      var front := seen[..|seen| - 1];
      LatestIsThere(front, id);
      if i :| 0 <= i < |seen| && seen[i].id == id {
        assert front[i].id == id;
      }
      if i :| 0 <= i < |front| && front[i].id == id {
        assert seen[i].id == id;
      }
    }
  }

  // A row as the items read so far leave it.
  ghost predicate Imported(before: Rows, after: Rows, source: string, seen: seq<Item>, k: Key) {
    var item := if k.source == source then Latest(seen, k.id) else None;
    if item.Some? then
      && k in after && after[k].kind == item.value.kind && after[k].name == item.value.name && !after[k].deleted
      && after[k].person == if k in before then before[k].person else None
    else
      (k in after <==> k in before) && (k in before ==> after[k] == before[k])
  }

  ghost predicate AllImported(before: Rows, after: Rows, source: string, seen: seq<Item>) {
    forall k :: Imported(before, after, source, seen, k)
  }

  lemma ImportStep(before: Rows, rows: Rows, source: string, seen: seq<Item>, item: Item, r: Row)
    requires AllImported(before, rows, source, seen)
    requires r.kind == item.kind && r.name == item.name && !r.deleted
    requires var k := Key(source, item.id); r.person == if k in rows then rows[k].person else None
    ensures AllImported(before, rows[Key(source, item.id) := r], source, seen + [item])
  {
    var all, next := seen + [item], rows[Key(source, item.id) := r];
    assert all[..|seen|] == seen;
    assert Imported(before, rows, source, seen, Key(source, item.id));
    forall k: Key ensures Imported(before, next, source, all, k) {
      assert Imported(before, rows, source, seen, k);
    }
  }

  // Rows marked as deleted, and no others.
  ghost predicate Marked(before: Rows, after: Rows, gone: set<Key>) {
    && after.Keys == before.Keys
    && forall k | k in after ::
         after[k] == if k in gone then before[k].(deleted := true, version := after[k].version) else before[k]
  }

  lemma MarkOne(before: Rows, rows: Rows, gone: set<Key>, k: Key, version: nat)
    requires Marked(before, rows, gone) && k in rows && k !in gone
    ensures Marked(before, rows[k := rows[k].(deleted := true, version := version)], gone + {k})
  {}

  lemma MarkedSize(before: Rows, after: Rows, gone: set<Key>)
    requires Marked(before, after, gone)
    ensures |after| == |before|
  {
    assert |after| == |after.Keys| && |before| == |before.Keys|;
  }

  lemma MarkNone(rows: Rows)
    ensures Marked(rows, rows, {})
  {}

  // What a complete import makes of the table: rows of its source say what their last item
  // says, or are deleted if they have none; only the grouping is nobody else's to change.
  ghost predicate FullImport(before: Rows, after: Rows, source: string, seen: seq<Item>) {
    && (forall k: Key :: k in after <==> k in before || (k.source == source && Latest(seen, k.id).Some?))
    && (forall k | k in after :: RowImported(before, after[k], source, seen, k))
  }

  ghost predicate RowImported(before: Rows, r: Row, source: string, seen: seq<Item>, k: Key) {
    if k.source != source then k in before && r == before[k]
    else
      match Latest(seen, k.id)
      case Some(item) =>
        r.kind == item.kind && r.name == item.name && !r.deleted
        && r.person == (if k in before then before[k].person else None)
      case None =>
        k in before && r == before[k].(deleted := true, version := r.version) && (before[k].deleted ==> r == before[k])
  }

  lemma ImportThenMark(before: Rows, between: Rows, after: Rows, source: string, seen: seq<Item>, gone: set<Key>)
    requires AllImported(before, between, source, seen) && Marked(between, after, gone)
    requires forall k: Key ::
               k in gone <==> k in between && k.source == source && !between[k].deleted && Latest(seen, k.id).None?
    ensures FullImport(before, after, source, seen)
  {
    hide Latest;
    forall k: Key
      ensures k in after <==> k in before || (k.source == source && Latest(seen, k.id).Some?)
      ensures k in after ==> RowImported(before, after[k], source, seen, k)
    {
      assert Imported(before, between, source, seen, k);
    }
  }

  // The feed of the rows not in `rest`, all of which come later.
  ghost predicate FeedSoFar(feed: seq<Change>, rows: Rows, source: string, after: nat, rest: set<Key>) {
    && (forall i, j | 0 <= i < j < |feed| :: feed[i].version < feed[j].version)
    && (forall i | 0 <= i < |feed| :: FromRow(feed[i], rows, source) && feed[i].version > after)
    && (forall i, k | 0 <= i < |feed| && k in rest && k in rows :: feed[i].version < rows[k].version)
    && (forall k | k in rows && k.source == source && rows[k].version > after && k !in rest ::
          exists i :: 0 <= i < |feed| && feed[i] == Change(k.id, ViewOf(rows[k]), rows[k].version))
  }

  lemma FeedNext(feed: seq<Change>, rows: Rows, source: string, after: nat, rest: set<Key>, k: Key)
    requires FeedSoFar(feed, rows, source, after, rest) && k in rest && k in rows && k.source == source
    requires rows[k].version > after && forall x | x in rest && x in rows && x != k :: rows[k].version < rows[x].version
    ensures FeedSoFar(feed + [Change(k.id, ViewOf(rows[k]), rows[k].version)], rows, source, after, rest - {k})
  {
    var next := feed + [Change(k.id, ViewOf(rows[k]), rows[k].version)];
    forall x | x in rows && x.source == source && rows[x].version > after && x !in rest - {k}
      ensures exists i :: 0 <= i < |next| && next[i] == Change(x.id, ViewOf(rows[x]), rows[x].version)
    {
      if x == k {
        assert next[|feed|] == Change(x.id, ViewOf(rows[x]), rows[x].version);
      } else {
        var i :| 0 <= i < |feed| && feed[i] == Change(x.id, ViewOf(rows[x]), rows[x].version);
        assert next[i] == feed[i];
      }
    }
  }

  class Store {
    var rows: Rows
    var sequence: nat

    ghost predicate Valid()
      reads this
    {
      Numbered(rows, sequence)
    }

    constructor ()
      ensures Valid() && rows == map[] && sequence == 0
    {
      rows, sequence := map[], 0;
    }

    method NextVersion() returns (version: nat)
      modifies this`sequence
      ensures version == sequence == old(sequence) + 1
    {
      sequence := sequence + 1;
      return sequence;
    }

    // One item: a new row, a change of one, or only a later sighting.
    method Upsert(source: string, item: Item, now: int) returns (added: bool, updated: bool)
      requires Valid()
      modifies this
      ensures Valid() && Extends(old(rows), old(sequence), rows, sequence)
      ensures var k := Key(source, item.id);
        && k in rows && rows == old(rows)[k := rows[k]]
        && rows[k].kind == item.kind && rows[k].name == item.name && !rows[k].deleted && rows[k].lastSeen == now
        && rows[k].person == (if k in old(rows) then old(rows)[k].person else None)
        && rows[k].firstSeen == (if k in old(rows) then old(rows)[k].firstSeen else now)
        && added == (k !in old(rows))
        && updated == (k in old(rows) && ViewOf(old(rows)[k]) != ViewOf(rows[k]))
        && sequence == old(sequence) + (if added || updated then 1 else 0)
        && rows[k].version == (if added || updated then sequence else old(rows)[k].version)
    {
      var k := Key(source, item.id);
      if k !in rows {
        ChangeExtends(rows, sequence, k, Row(item.kind, item.name, None, now, now, false, sequence + 1));
        var version := NextVersion();
        rows := rows[k := Row(item.kind, item.name, None, now, now, false, version)];
        return true, false;
      }
      var row := rows[k];
      var changed := row.kind != item.kind || row.name != item.name || row.deleted;
      if changed {
        var next := row.(kind := item.kind, name := item.name, lastSeen := now, deleted := false);
        ChangeExtends(rows, sequence, k, next.(version := sequence + 1));
        var version := NextVersion();
        rows := rows[k := next.(version := version)];
      } else {
        rows := rows[k := row.(lastSeen := now)];
      }
      return false, changed;
    }

    // A complete import: every item is upserted, then what it no longer has is marked as
    // deleted. An import of nothing changes nothing.
    method UpsertContacts(source: string, seen: seq<Item>, now: int) returns (added: nat, updated: nat, softDeleted: nat)
      requires Valid()
      modifies this
      ensures Valid() && Extends(old(rows), old(sequence), rows, sequence)
      ensures sequence == old(sequence) + added + updated + softDeleted && |rows| == |old(rows)| + added
      ensures if seen == [] then rows == old(rows) else FullImport(old(rows), rows, source, seen)
    {
      hide Numbered, FullImport, AllImported, Marked;
      added, updated, softDeleted := 0, 0, 0;
      if seen == [] {
        return;
      }
      added, updated := UpsertAll(source, seen, now);
      ghost var between, sequence' := rows, sequence;
      var missing := set k | k in rows && k.source == source && !rows[k].deleted && Latest(seen, k.id).None?;
      softDeleted := SoftDelete(missing);
      ImportThenMark(old(rows), between, rows, source, seen, missing);
      MarkedSize(between, rows, missing);
      ExtendsTransitively(old(rows), old(sequence), between, sequence', rows, sequence);
    }

    method UpsertAll(source: string, seen: seq<Item>, now: int) returns (added: nat, updated: nat)
      requires Valid()
      modifies this
      ensures Valid() && Extends(old(rows), old(sequence), rows, sequence)
      ensures sequence == old(sequence) + added + updated && |rows| == |old(rows)| + added
      ensures AllImported(old(rows), rows, source, seen)
    {
      added, updated := 0, 0;
      for i := 0 to |seen|
        invariant Valid() && Extends(old(rows), old(sequence), rows, sequence)
        invariant sequence == old(sequence) + added + updated && |rows| == |old(rows)| + added
        invariant AllImported(old(rows), rows, source, seen[..i])
      {
        hide Numbered, Extends, AllImported;
        assert seen[..i + 1] == seen[..i] + [seen[i]];
        ghost var rows', sequence' := rows, sequence;
        var isNew, changed := Upsert(source, seen[i], now);
        ExtendsTransitively(old(rows), old(sequence), rows', sequence', rows, sequence);
        ImportStep(old(rows), rows', source, seen[..i], seen[i], rows[Key(source, seen[i].id)]);
        added := if isNew then added + 1 else added;
        updated := if changed then updated + 1 else updated;
      }
      assert seen[..|seen|] == seen;
    }

    method MarkDeleted(k: Key)
      requires Valid() && k in rows
      modifies this
      ensures Valid() && Extends(old(rows), old(sequence), rows, sequence) && sequence == old(sequence) + 1
      ensures rows == old(rows)[k := old(rows)[k].(deleted := true, version := sequence)]
    {
      ChangeExtends(rows, sequence, k, rows[k].(deleted := true, version := sequence + 1));
      var version := NextVersion();
      rows := rows[k := rows[k].(deleted := true, version := version)];
    }

    // The rows that are gone from the source, in any order.
    method SoftDelete(missing: set<Key>) returns (count: nat)
      requires Valid() && forall k | k in missing :: k in rows
      modifies this
      ensures Valid() && Extends(old(rows), old(sequence), rows, sequence) && Marked(old(rows), rows, missing)
      ensures count == |missing| && sequence == old(sequence) + count
    {
      hide Numbered, Marked;
      var rest := missing;
      count := 0;
      MarkNone(rows);
      assert missing - rest == {};
      while rest != {}
        invariant Valid() && Extends(old(rows), old(sequence), rows, sequence)
        invariant rest <= missing && count + |rest| == |missing| && sequence == old(sequence) + count
        invariant Marked(old(rows), rows, missing - rest)
        invariant forall k | k in missing :: k in rows
        decreases |rest|
      {
        hide Extends;
        var k :| k in rest;
        ghost var rows', sequence' := rows, sequence;
        MarkOne(old(rows), rows, missing - rest, k, sequence + 1);
        MarkDeleted(k);
        ExtendsTransitively(old(rows), old(sequence), rows', sequence', rows, sequence);
        assert missing - (rest - {k}) == missing - rest + {k};
        rest := rest - {k};
        count := count + 1;
      }
      assert missing - {} == missing;
    }

    // The one writer of the grouping.
    method SetPersonId(source: string, id: string, person: Option<string>) returns (changed: bool)
      requires Valid()
      modifies this
      ensures Valid() && Extends(old(rows), old(sequence), rows, sequence)
      ensures var k := Key(source, id);
        && changed == (k in old(rows) && old(rows)[k].person != person)
        && rows == (if changed then old(rows)[k := old(rows)[k].(person := person, version := sequence)] else old(rows))
        && sequence == old(sequence) + (if changed then 1 else 0)
    {
      var k := Key(source, id);
      if k !in rows || rows[k].person == person {
        return false;
      }
      ChangeExtends(rows, sequence, k, rows[k].(person := person, version := sequence + 1));
      var version := NextVersion();
      rows := rows[k := rows[k].(person := person, version := version)];
      return true;
    }

    method SharedSince(source: string, after: nat) returns (feed: seq<Change>)
      requires Valid()
      ensures IsFeed(feed, rows, source, after)
      ensures forall c | c in feed :: Key(source, c.id) in rows
                && var r := rows[Key(source, c.id)];
                && c.version == r.version > after && c.view.kind == r.kind && c.view.name == r.name
                && c.view.person == r.person && c.view.deleted == r.deleted
    {
      var rest := set k | k in rows && k.source == source && rows[k].version > after;
      feed := [];
      while rest != {}
        invariant forall k | k in rest :: k in rows && k.source == source && rows[k].version > after
        invariant FeedSoFar(feed, rows, source, after, rest)
        decreases |rest|
      {
        hide Numbered, FeedSoFar;
        var k := Earliest(rest);
        FeedNext(feed, rows, source, after, rest, k);
        feed := feed + [Change(k.id, ViewOf(rows[k]), rows[k].version)];
        rest := rest - {k};
      }
    }

    method Earliest(keys: set<Key>) returns (first: Key)
      requires Valid() && keys != {} && forall k | k in keys :: k in rows
      ensures first in keys && forall k | k in keys && k != first :: rows[first].version < rows[k].version
    {
      first :| first in keys;
      var rest := keys - {first};
      while rest != {}
        invariant rest <= keys && first in keys && first !in rest
        invariant forall k | k in keys && k !in rest && k != first :: rows[first].version < rows[k].version
        decreases |rest|
      {
        var k :| k in rest;
        rest := rest - {k};
        if rows[k].version < rows[first].version {
          first := k;
        }
      }
    }
  }
}

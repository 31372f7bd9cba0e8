/**
 Activation of a rendered configuration through a redo journal. Every file replacement is
 atomic; a process may stop between any two, and the next run finishes what was journalled.
 */
module ConfigActivation {
  import opened Wrappers
  import opened ConfigMerge

  datatype Path = Path(absolute: bool, parts: seq<string>)

  // The four copies of a configuration file.
  datatype Slot = Effective(path: Path) | Default(path: Path) | Override(path: Path) | Incoming(path: Path)

  type Files = map<Slot, Text>

  datatype Item = Item(dest: Path, default: Text, effective: Text, override: bool)

  datatype Staged = Staged(path: Path, text: Text)

  // What the code relies on: a line matcher, the Discord registration (None when the file
  // has no list to register in), and which paths are symbolic links.
  datatype Tools = Tools(diff: (Text, Text) -> seq<Edit>, register: Text -> Option<Text>, symlinked: set<Path>)

  ghost predicate Sound(tools: Tools) {
    && (forall base, text :: Script(base, text, tools.diff(base, text)))
    && (forall text :: tools.register(text).Some? ==>
          tools.register(tools.register(text).value) == tools.register(text))
  }

  const HOMESERVER := Path(false, ["synapse", "homeserver.yaml"])
  const REGISTRATION := Path(false, ["synapse", "discord-registration.yaml"])

  predicate Safe(p: Path) {
    !p.absolute && ".." !in p.parts
  }

  // ------------------------------------------------------------------ the redo journal

  datatype Write = Write(slot: Slot, text: Text)

  function WritesOf(item: Item): seq<Write> {
    [Write(Effective(item.dest), item.effective), Write(Default(item.dest), item.default)]
    + (if item.override then [Write(Override(item.dest), item.effective)] else [])
  }

  function AllWrites(items: seq<Item>): seq<Write> {
    if items == [] then [] else AllWrites(items[..|items| - 1]) + WritesOf(items[|items| - 1])
  }

  function DoWrites(files: Files, ws: seq<Write>): Files {
    if ws == [] then files
    else DoWrites(files, ws[..|ws| - 1])[ws[|ws| - 1].slot := ws[|ws| - 1].text]
  }

  lemma {:induction false} WritesOverlay(files: Files, ws: seq<Write>)
    ensures DoWrites(files, ws) == files + DoWrites(map[], ws)
  {
    if ws != [] {
      WritesOverlay(files, ws[..|ws| - 1]);
    }
  }

  lemma {:induction false} PrefixWritesLess(ws: seq<Write>, k: nat)
    requires k <= |ws|
    ensures DoWrites(map[], ws[..k]).Keys <= DoWrites(map[], ws).Keys
    decreases |ws|
  {
    if k < |ws| {
      assert ws[..|ws| - 1][..k] == ws[..k];
      PrefixWritesLess(ws[..|ws| - 1], k);
    } else {
      assert ws[..k] == ws;
    }
  }

  // Starting over after any part of the writes ends in the same files.
  lemma RedoAfterPrefix(files: Files, ws: seq<Write>, k: nat)
    requires k <= |ws|
    ensures DoWrites(DoWrites(files, ws[..k]), ws) == DoWrites(files, ws)
  {
    WritesOverlay(files, ws[..k]);
    WritesOverlay(files, ws);
    WritesOverlay(DoWrites(files, ws[..k]), ws);
    PrefixWritesLess(ws, k);
  }

  // The files after runs of the same journal that each stopped after so many writes.
  function Interrupted(files: Files, ws: seq<Write>, stops: seq<nat>): Files
    requires forall i | 0 <= i < |stops| :: stops[i] <= |ws|
  {
    if stops == [] then files
    else DoWrites(Interrupted(files, ws, stops[..|stops| - 1]), ws[..stops[|stops| - 1]])
  }

  // However often recovery is interrupted, completing it ends where one run would have.
  lemma {:induction false} RecoveryConverges(files: Files, ws: seq<Write>, stops: seq<nat>)
    requires forall i | 0 <= i < |stops| :: stops[i] <= |ws|
    ensures DoWrites(Interrupted(files, ws, stops), ws) == DoWrites(files, ws)
  {
    if stops != [] {
      var front := stops[..|stops| - 1];
      RecoveryConverges(files, ws, front);
      RedoAfterPrefix(Interrupted(files, ws, front), ws, stops[|stops| - 1]);
    }
  }

  // ------------------------------------------------------------------ the plan

  datatype Verdict = Planned(item: Item) | Clash | Refused

  function Local(files: Files, s: Staged): Text {
    if Override(s.path) in files then files[Override(s.path)]
    else if Effective(s.path) in files then files[Effective(s.path)]
    else s.text
  }

  ghost function MergedFor(tools: Tools, files: Files, s: Staged): Result<Text, Refusal>
    requires Sound(tools)
  {
    if Default(s.path) !in files then Ok(Local(files, s))
    else
      var base, local := files[Default(s.path)], Local(files, s);
      Merged(base, local, s.text, tools.diff(base, local), tools.diff(base, s.text))
  }

  predicate Registers(stage: seq<Staged>, p: Path) {
    p == HOMESERVER && exists s | s in stage :: s.path == REGISTRATION
  }

  // What activation does about one staged file: a refusal stops it, a clash is reported.
  ghost function Judge(tools: Tools, files: Files, stage: seq<Staged>, s: Staged): Verdict
    requires Sound(tools)
  {
    if s.path in tools.symlinked then Refused
    else
      match MergedFor(tools, files, s)
      case Err(_) => Clash
      case Ok(merged) =>
        var effective := if Registers(stage, s.path) then tools.register(merged) else Some(merged);
        if effective.None? then Refused
        else Planned(Item(s.path, s.text, effective.value, Override(s.path) in files))
  }

  ghost predicate AllPlanned(tools: Tools, files: Files, stage: seq<Staged>)
    requires Sound(tools)
  {
    forall s | s in stage :: Judge(tools, files, stage, s).Planned?
  }

  ghost function Plan(tools: Tools, files: Files, stage: seq<Staged>): seq<Item>
    requires Sound(tools) && AllPlanned(tools, files, stage)
  {
    seq(|stage|, i requires 0 <= i < |stage| =>
      assert stage[i] in stage; Judge(tools, files, stage, stage[i]).item)
  }

  predicate Changes(files: Files, item: Item) {
    Effective(item.dest) !in files || files[Effective(item.dest)] != item.effective
  }

  function ChangedPaths(files: Files, items: seq<Item>): seq<Path> {
    if items == [] then []
    else
      ChangedPaths(files, items[..|items| - 1])
      + (if Changes(files, items[|items| - 1]) then [items[|items| - 1].dest] else [])
  }

  // What is reported as changed are the files that were not there or said something else.
  lemma {:induction false} ChangedIs(files: Files, items: seq<Item>, p: Path)
    ensures p in ChangedPaths(files, items) <==>
              exists item | item in items ::
                item.dest == p && (Effective(p) !in files || files[Effective(p)] != item.effective)
  {
    if items != [] {
      var front, last := items[..|items| - 1], items[|items| - 1];
      assert items == front + [last];
      ChangedIs(files, front, p);
    }
  }

  predicate Distinct(stage: seq<Staged>) {
    forall i, j | 0 <= i < j < |stage| :: stage[i].path != stage[j].path
  }

  // ------------------------------------------------------------------ whose text is planned

  // The operator's text: the override if there is one, else the file in effect, and the
  // staged text where there is neither.
  predicate IsOperators(files: Files, s: Staged, text: Text) {
    && (Override(s.path) in files ==> text == files[Override(s.path)])
    && (Override(s.path) !in files && Effective(s.path) in files ==> text == files[Effective(s.path)])
    && (Override(s.path) !in files && Effective(s.path) !in files ==> text == s.text)
  }

  // What is made of the operator's text: kept as it is where no default was stored, else
  // merged with what has changed since; and registered in the bridge, where that is asked.
  lemma JudgedByCopies(tools: Tools, files: Files, stage: seq<Staged>, s: Staged, mine: Text)
    requires Sound(tools) && s.path !in tools.symlinked && IsOperators(files, s, mine)
    ensures var bridged := && s.path == Path(false, ["synapse", "homeserver.yaml"])
                           && exists x | x in stage :: x.path == Path(false, ["synapse", "discord-registration.yaml"]);
      var text := if Default(s.path) !in files then Ok(mine)
                  else Merged(files[Default(s.path)], mine, s.text,
                              tools.diff(files[Default(s.path)], mine), tools.diff(files[Default(s.path)], s.text));
      Judge(tools, files, stage, s) ==
        if text.Err? then Clash
        else if !bridged then Planned(Item(s.path, s.text, text.value, Override(s.path) in files))
        else if tools.register(text.value).None? then Refused
        else Planned(Item(s.path, s.text, tools.register(text.value).value, Override(s.path) in files))
  {}

  // With an override the file in effect does not matter.
  lemma OverrideDecides(tools: Tools, files: Files, stage: seq<Staged>, s: Staged, text: Text)
    requires Sound(tools) && Override(s.path) in files
    ensures Judge(tools, files[Effective(s.path) := text], stage, s) == Judge(tools, files, stage, s)
    ensures Judge(tools, files - {Effective(s.path)}, stage, s) == Judge(tools, files, stage, s)
  {}

  // A symbolic link refuses, whatever else is there.
  lemma LinksAreRefused(tools: Tools, files: Files, stage: seq<Staged>, s: Staged)
    requires Sound(tools) && s.path in tools.symlinked
    ensures Judge(tools, files, stage, s) == Refused && (s in stage ==> !AllPlanned(tools, files, stage))
  {}

  // ------------------------------------------------------------------ activating twice

  predicate DistinctItems(items: seq<Item>) {
    forall i, j | 0 <= i < j < |items| :: items[i].dest != items[j].dest
  }

  // What a completed journal leaves in the slots of one path.
  ghost predicate Settled(before: Files, after: Files, item: Item) {
    && Effective(item.dest) in after && after[Effective(item.dest)] == item.effective
    && Default(item.dest) in after && after[Default(item.dest)] == item.default
    && (if item.override then Override(item.dest) in after && after[Override(item.dest)] == item.effective
        else (Override(item.dest) in after <==> Override(item.dest) in before))
  }

  lemma {:induction false} MoreWrites(files: Files, ws: seq<Write>, more: seq<Write>)
    ensures DoWrites(files, ws + more) == DoWrites(DoWrites(files, ws), more)
  {
    if more == [] {
      assert ws + more == ws;
    } else {
      MoreWrites(files, ws, more[..|more| - 1]);
      assert (ws + more)[..|ws + more| - 1] == ws + more[..|more| - 1];
    }
  }

  lemma OneWrite(files: Files, ws: seq<Write>, w: Write)
    ensures DoWrites(files, ws + [w]) == DoWrites(files, ws)[w.slot := w.text]
  {
    assert (ws + [w])[..|ws|] == ws;
  }

  lemma ItemWritten(files: Files, item: Item)
    ensures DoWrites(files, WritesOf(item)) ==
      (var two := files[Effective(item.dest) := item.effective][Default(item.dest) := item.default];
       if item.override then two[Override(item.dest) := item.effective] else two)
  {
    var a, b := Write(Effective(item.dest), item.effective), Write(Default(item.dest), item.default);
    OneWrite(files, [], a);
    OneWrite(files, [a], b);
    assert [] + [a] == [a] && [a] + [b] == [a, b];
    if item.override {
      var c := Write(Override(item.dest), item.effective);
      OneWrite(files, [a, b], c);
      assert WritesOf(item) == [a, b] + [c];
    } else {
      assert WritesOf(item) == [a, b];
    }
  }

  lemma {:induction false} JournalSettles(files: Files, items: seq<Item>, k: nat)
    requires DistinctItems(items) && k < |items|
    ensures Settled(files, DoWrites(files, AllWrites(items)), items[k])
    decreases |items|
  {
    var front, last := items[..|items| - 1], items[|items| - 1];
    var before := DoWrites(files, AllWrites(front));
    MoreWrites(files, AllWrites(front), WritesOf(last));
    ItemWritten(before, last);
    if k < |front| {
      JournalSettles(files, front, k);
    } else {
      OtherSlots(files, front, Override(last.dest));
    }
  }

  lemma {:induction false} OtherSlots(files: Files, items: seq<Item>, slot: Slot)
    requires forall i | 0 <= i < |items| :: items[i].dest != slot.path
    ensures slot in DoWrites(files, AllWrites(items)) <==> slot in files
  {
    if items != [] {
      var front, last := items[..|items| - 1], items[|items| - 1];
      MoreWrites(files, AllWrites(front), WritesOf(last));
      ItemWritten(DoWrites(files, AllWrites(front)), last);
      OtherSlots(files, front, slot);
    }
  }

  // An activation leaves an operator's file that has no stored default as the operator had
  // it, in effect and as the override if it was one; the staged text is the default from then.
  lemma OperatorsTextStays(tools: Tools, files: Files, stage: seq<Staged>, k: nat, mine: Text)
    requires Sound(tools) && Distinct(stage) && AllPlanned(tools, files, stage) && k < |stage|
    requires IsOperators(files, stage[k], mine) && Default(stage[k].path) !in files && stage[k].path != HOMESERVER
    ensures var after, path := DoWrites(files, AllWrites(Plan(tools, files, stage))), stage[k].path;
      && Effective(path) in after && after[Effective(path)] == mine
      && Default(path) in after && after[Default(path)] == stage[k].text
      && (Override(path) in after <==> Override(path) in files)
      && (Override(path) in files ==> after[Override(path)] == mine)
  {
    assert stage[k] in stage && Judge(tools, files, stage, stage[k]).Planned?;
    JudgedByCopies(tools, files, stage, stage[k], mine);
    JournalSettles(files, Plan(tools, files, stage), k);
    hide Judge, Merged;
  }

  // A file that was activated from a stage is planned the same way when that stage comes
  // again, whatever the operator's and the upstream edits were.
  lemma JudgedAgain(tools: Tools, files: Files, after: Files, stage: seq<Staged>, s: Staged)
    requires Sound(tools) && Judge(tools, files, stage, s).Planned?
    requires Settled(files, after, Judge(tools, files, stage, s).item)
    ensures Judge(tools, after, stage, s) == Judge(tools, files, stage, s)
    ensures !Changes(after, Judge(tools, files, stage, s).item)
  {
    var e := Judge(tools, files, stage, s).item.effective;
    assert Local(after, s) == e;
    assert MergedFor(tools, after, s) == Ok(e);
    if Registers(stage, s.path) {
      var merged := MergedFor(tools, files, s).value;
      assert tools.register(tools.register(merged).value) == tools.register(merged);
    }
  }

  // Activating the same stage again plans the same journal, which changes no file.
  lemma ActivationIsIdempotent(tools: Tools, files: Files, stage: seq<Staged>)
    requires Sound(tools) && Distinct(stage) && AllPlanned(tools, files, stage)
    ensures var items := Plan(tools, files, stage);
      var after := DoWrites(files, AllWrites(items));
      && AllPlanned(tools, after, stage) && Plan(tools, after, stage) == items
      && (forall item | item in items :: !Changes(after, item))
      && DoWrites(after, AllWrites(items)) == after
  {
    var items := Plan(tools, files, stage);
    var ws := AllWrites(items);
    var after := DoWrites(files, ws);
    forall i | 0 <= i < |stage|
      ensures Judge(tools, after, stage, stage[i]) == Judge(tools, files, stage, stage[i])
      ensures !Changes(after, items[i])
    {
      assert stage[i] in stage;
      JournalSettles(files, items, i);
      JudgedAgain(tools, files, after, stage, stage[i]);
    }
    assert ws[..|ws|] == ws;
    RedoAfterPrefix(files, ws, |ws|);
  }

  // ------------------------------------------------------------------ the installation

  // Only candidates for review differ.
  ghost predicate SameButIncoming(before: Files, after: Files) {
    forall slot: Slot | !slot.Incoming? ::
      (slot in after <==> slot in before) && (slot in before ==> after[slot] == before[slot])
  }

  lemma PlannedPaths(tools: Tools, files: Files, stage: seq<Staged>)
    requires Sound(tools) && AllPlanned(tools, files, stage)
    ensures forall item | item in Plan(tools, files, stage) :: exists s | s in stage :: item.dest == s.path
  {
    var items := Plan(tools, files, stage);
    forall i | 0 <= i < |items| ensures items[i].dest == stage[i].path {
      assert stage[i] in stage;
    }
  }

  lemma JudgedTheSame(tools: Tools, before: Files, after: Files, stage: seq<Staged>, s: Staged)
    requires Sound(tools) && SameButIncoming(before, after)
    ensures Judge(tools, after, stage, s) == Judge(tools, before, stage, s)
  {
    assert Local(before, s) == Local(after, s);
  }

  // Where item i's writes stand among all of them.
  lemma {:induction false} WritesAt(items: seq<Item>, i: nat)
    requires i < |items|
    ensures |AllWrites(items[..i])| + |WritesOf(items[i])| == |AllWrites(items[..i + 1])| <= |AllWrites(items)|
    ensures AllWrites(items)[..|AllWrites(items[..i])|] == AllWrites(items[..i])
    ensures AllWrites(items)[..|AllWrites(items[..i + 1])|] == AllWrites(items[..i]) + WritesOf(items[i])
    decreases |items|
  {
    assert items[..i + 1][..i] == items[..i];
    if i + 1 == |items| {
      assert items[..i + 1] == items;
    } else {
      var front := items[..|items| - 1];
      WritesAt(front, i);
      assert front[..i] == items[..i] && front[..i + 1] == items[..i + 1];
    }
  }

  // The files once so many writes of a journal are done.
  ghost predicate After(before: Files, files: Files, items: seq<Item>, done: nat) {
    done <= |AllWrites(items)| && files == DoWrites(before, AllWrites(items)[..done])
  }

  lemma SomeOfItem(before: Files, items: seq<Item>, i: nat, n: nat)
    requires i < |items| && n <= |WritesOf(items[i])|
    ensures var done := |AllWrites(items[..i])|;
      After(before, DoWrites(DoWrites(before, AllWrites(items[..i])), WritesOf(items[i])[..n]), items, done + n)
  {
    WritesAt(items, i);
    var ws, done, own := AllWrites(items), |AllWrites(items[..i])|, WritesOf(items[i]);
    assert ws[..done + n] == ws[..done + |own|][..done + n] == ws[..done] + own[..n];
    MoreWrites(before, ws[..done], own[..n]);
  }

  // The writes of one more item, as far as they got.
  lemma OneMoreItem(before: Files, was: Files, files: Files, items: seq<Item>, i: nat, n: nat, done: nat)
    requires i < |items| && n <= |WritesOf(items[i])| && files == DoWrites(was, WritesOf(items[i])[..n])
    requires After(before, was, items, done) && done == |AllWrites(items[..i])|
    ensures After(before, files, items, done + n)
    ensures n == |WritesOf(items[i])| ==> done + n == |AllWrites(items[..i + 1])|
  {
    WritesAt(items, i);
    SomeOfItem(before, items, i, n);
  }

  // Recovery ends, is stopped before one of its writes, or meets a path it will not touch.
  datatype Recovery = Finished | Stopped | BadPath

  datatype Activation = Activated(changed: seq<Path>) | Rejected | Interrupted

  class Installation {
    const tools: Tools
    var files: Files
    var pending: Option<seq<Item>>

    constructor (tools: Tools, files: Files, pending: Option<seq<Item>>)
      ensures this.tools == tools && this.files == files && this.pending == pending
    {
      this.tools, this.files, this.pending := tools, files, pending;
    }

    // Replaces the files of one item, as far as `room` allows.
    method WriteItem(item: Item, room: nat) returns (n: nat)
      modifies this`files
      ensures n == if room < |WritesOf(item)| then room else |WritesOf(item)|
      ensures files == DoWrites(old(files), WritesOf(item)[..n])
    {
      var ws := WritesOf(item);
      OneWrite(files, [], ws[0]);
      OneWrite(files, [ws[0]], ws[1]);
      assert ws[..0] == [] && ws[..1] == [] + [ws[0]] && ws[..2] == [ws[0]] + [ws[1]];
      if room == 0 {
        return 0;
      }
      files := files[Effective(item.dest) := item.effective];
      if room == 1 {
        return 1;
      }
      files := files[Default(item.dest) := item.default];
      if room == 2 || !item.override {
        return 2;
      }
      OneWrite(old(files), ws[..2], ws[2]);
      assert ws[..3] == ws[..2] + [ws[2]];
      files := files[Override(item.dest) := item.effective];
      return 3;
    }

    predicate NoneAstray(items: seq<Item>) {
      forall item | item in items :: !item.dest.absolute && ".." !in item.dest.parts
    }

    // `budget` is how many file replacements happen before the process dies.
    method Recover(budget: nat) returns (outcome: Recovery, done: nat)
      modifies this
      ensures done <= budget && (outcome.Stopped? ==> done == budget)
      ensures old(pending).None? ==> outcome == Finished && files == old(files) && pending.None? && done == 0
      ensures old(pending).Some? ==> After(old(files), files, old(pending).value, done)
      ensures outcome.Finished? ==> pending.None? && (old(pending).Some? ==> done == |AllWrites(old(pending).value)|)
      ensures !outcome.Finished? ==> pending == old(pending)
      ensures outcome.Finished? <==>
                (old(pending).Some? ==> NoneAstray(old(pending).value) && budget > |AllWrites(old(pending).value)|)
      ensures old(pending).Some? && outcome.BadPath? ==>
                exists i | 0 <= i < |old(pending).value| ::
                  var path := old(pending).value[i].dest;
                  (path.absolute || ".." in path.parts) && done == |AllWrites(old(pending).value[..i])|
    {
      done := 0;
      if pending.None? {
        return Finished, 0;
      }
      var items := pending.value;
      ghost var before := files;
      assert AllWrites(items)[..0] == [] && AllWrites(items[..0]) == [] && DoWrites(before, []) == before;
      hide DoWrites, WritesOf, AllWrites;
      for i := 0 to |items|
        invariant pending == old(pending) && After(before, files, items, done) && done == |AllWrites(items[..i])|
        invariant done <= budget
        invariant forall j | 0 <= j < i :: Safe(items[j].dest)
      {
        if !Safe(items[i].dest) {
          assert items[i] in items;
          return BadPath, done;
        }
        ghost var was := files;
        var n := WriteItem(items[i], budget - done);
        OneMoreItem(before, was, files, items, i, n, done);
        done := done + n;
        if n < |WritesOf(items[i])| {
          return Stopped, done;
        }
      }
      assert items[..|items|] == items;
      if done == budget {
        return Stopped, done;
      }
      pending := None;
      return Finished, done;
    }

    method PlanFile(stage: seq<Staged>, s: Staged) returns (verdict: Verdict)
      requires Sound(tools)
      modifies this`files
      ensures verdict == Judge(tools, old(files), stage, s)
      ensures files == if verdict.Clash? then old(files)[Incoming(s.path) := s.text] else old(files)
      // Where no default was stored, and nothing is to be registered, the operator's text is planned.
      ensures s.path !in tools.symlinked && Default(s.path) !in old(files) && s.path != HOMESERVER ==>
                forall mine | IsOperators(old(files), s, mine) ::
                  verdict == Planned(Item(s.path, s.text, mine, Override(s.path) in old(files)))
    {
      if s.path in tools.symlinked {
        return Refused;
      }
      var merged := Local(files, s);
      if Default(s.path) in files {
        var base := files[Default(s.path)];
        var r := Merge(base, merged, s.text, tools.diff(base, merged), tools.diff(base, s.text));
        if r.Err? {
          files := files[Incoming(s.path) := s.text];
          return Clash;
        }
        merged := r.value;
      }
      if Registers(stage, s.path) {
        var registered := tools.register(merged);
        if registered.None? {
          return Refused;
        }
        merged := registered.value;
      }
      return Planned(Item(s.path, s.text, merged, Override(s.path) in files));
    }

    // Conflicts are collected over the whole stage; anything that refuses ends the plan.
    method Prepare(stage: seq<Staged>) returns (plan: Option<seq<Item>>)
      requires Sound(tools)
      modifies this`files
      ensures plan.Some? ==> AllPlanned(tools, old(files), stage) && plan.value == Plan(tools, old(files), stage)
      ensures plan.Some? ==> files == old(files)
      ensures plan.None? ==> !AllPlanned(tools, old(files), stage) && SameButIncoming(old(files), files)
      // Every conflict is put up for review, unless something refuses the stage.
      ensures Distinct(stage) && (forall s | s in stage :: !Judge(tools, old(files), stage, s).Refused?) ==>
                forall s | s in stage && Judge(tools, old(files), stage, s).Clash? ::
                  Incoming(s.path) in files && files[Incoming(s.path)] == s.text
    {
      hide Judge;
      ghost var before := files;
      var items: seq<Item> := [];
      var conflicts: seq<Path> := [];
      for i := 0 to |stage|
        invariant SameButIncoming(before, files) && (conflicts == [] ==> files == before && |items| == i)
        invariant conflicts == [] ==>
          forall j | 0 <= j < i :: Judge(tools, before, stage, stage[j]) == Planned(items[j])
        invariant conflicts != [] ==> !AllPlanned(tools, before, stage)
        invariant Distinct(stage) ==>
          forall j | 0 <= j < i && Judge(tools, before, stage, stage[j]).Clash? ::
            Incoming(stage[j].path) in files && files[Incoming(stage[j].path)] == stage[j].text
      {
        JudgedTheSame(tools, before, files, stage, stage[i]);
        assert stage[i] in stage;
        var verdict := PlanFile(stage, stage[i]);
        match verdict {
          case Refused => return None;
          case Clash => conflicts := conflicts + [stage[i].path];
          case Planned(item) => items := items + [item];
        }
      }
      if conflicts != [] {
        return None;
      }
      return Some(items);
    }

    // Nothing but review candidates changes before the journal is written; from then on
    // whatever stops the process leaves files from which recovery reaches the same end.
    method Activate(stage: seq<Staged>, budget: nat) returns (outcome: Activation)
      requires Sound(tools) && forall s | s in stage :: Safe(s.path)
      modifies this
      ensures var start := if old(pending).Some? then DoWrites(old(files), AllWrites(old(pending).value)) else old(files);
        match outcome
        case Activated(changed) =>
          && AllPlanned(tools, start, stage) && pending.None?
          && files == DoWrites(start, AllWrites(Plan(tools, start, stage)))
          && changed == ChangedPaths(start, Plan(tools, start, stage))
        case Rejected =>
          || (pending == old(pending) && SameButIncoming(old(files), files)
              && (pending.None? ==> !AllPlanned(tools, start, stage)))
          || (old(pending).Some? && pending == old(pending) && exists n :: After(old(files), files, old(pending).value, n))
          || (pending.None? && SameButIncoming(start, files) && !AllPlanned(tools, start, stage))
        case Interrupted =>
          && pending.Some?
          && ((pending == old(pending) && exists n :: After(old(files), files, pending.value, n))
              || (AllPlanned(tools, start, stage) && pending == Some(Plan(tools, start, stage))
                  && exists n :: After(start, files, pending.value, n)))
      // It succeeds exactly if nothing conflicts, now or behind a journal left over, no path of
      // that leads astray, and the process lives for all the writes.
      ensures var start := if old(pending).Some? then DoWrites(old(files), AllWrites(old(pending).value)) else old(files);
        outcome.Activated? <==>
          && AllPlanned(tools, old(files), stage) && AllPlanned(tools, start, stage)
          && (old(pending).Some? ==> NoneAstray(old(pending).value))
          && budget > (if old(pending).Some? then |AllWrites(old(pending).value)| else 0)
                      + |AllWrites(Plan(tools, start, stage))|
      decreases if pending.Some? then 1 else 0
    {
      ghost var first := files;
      var plan := Prepare(stage);
      if plan.None? {
        return Rejected;
      }
      if pending.Some? {
        var recovery, done := Recover(budget);
        if recovery.BadPath? {
          return Rejected;
        }
        if recovery.Stopped? {
          return Interrupted;
        }
        assert After(first, files, old(pending).value, done);
        assert AllWrites(old(pending).value)[..done] == AllWrites(old(pending).value);
        outcome := Activate(stage, budget - done);
        return;
      }
      PlannedPaths(tools, files, stage);
      outcome := Install(plan.value, budget);
    }

    // The plan is journalled before any file is replaced.
    method Install(plan: seq<Item>, budget: nat) returns (outcome: Activation)
      requires pending.None? && NoneAstray(plan)
      modifies this
      ensures match outcome
        case Activated(changed) =>
          pending.None? && files == DoWrites(old(files), AllWrites(plan)) && changed == ChangedPaths(old(files), plan)
        case Rejected => false
        case Interrupted => pending == Some(plan) && exists n :: After(old(files), files, plan, n)
      ensures outcome.Activated? <==> budget > |AllWrites(plan)|
    {
      pending := Some(plan);
      var changed := Compare(plan);
      var recovery, done := Recover(budget);
      if recovery.Finished? {
        assert AllWrites(plan)[..done] == AllWrites(plan);
        return Activated(changed);
      }
      return Interrupted;
    }

    method Compare(items: seq<Item>) returns (changed: seq<Path>)
      ensures changed == ChangedPaths(files, items)
    {
      changed := [];
      for i := 0 to |items|
        invariant changed == ChangedPaths(files, items[..i])
      {
        assert items[..i + 1][..i] == items[..i];
        if Changes(files, items[i]) {
          changed := changed + [items[i].dest];
        }
      }
      assert items[..|items|] == items;
    }
  }
}

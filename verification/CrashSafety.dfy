/** The two halves together: the card table is the database of the journalled mutation, so the
    forest survives a crash anywhere. */
module CrashSafety {
  import opened Common
  import opened Cards
  import opened Ancestry
  import opened Placement
  import opened Lifecycle
  import opened Journal
  import opened Recovery
  import opened Atomicity
  import opened Mutation

  /** A journalled lifecycle operation about to run: `op` carries the rows of `o`. */
  ghost predicate Begins(proj: Tree -> Table, a: Arithmetic, w: World<Table>, o: Op, op: Operation<Table>)
  {
    && Ready(proj, w) && Prepared(proj, w, op) && DistinctPaths(op.paths)
    && WellKeyed(w.db) && !Unjournalled(o) && op.rows == Lifecycle.Step(a, w.db, o)
  }

  /** The operation stops at `at`, and the project is used again. */
  ghost predicate Episode(proj: Tree -> Table, a: Arithmetic, w: World<Table>, v: World<Table>, o: Op,
                          op: Operation<Table>,
                          at: Stop, walk: seq<Oid>)
  {
    && Begins(proj, a, w, o, op) && StopsIn(at, AllSteps(w, op))
    && IsWalk(Done(w, op).commits, op.oid, Tip(w, w.head), walk)
    && var u := StoppedAt(proj, w, AllSteps(w, op), at);
       (u.journal.Some? ==> WellSaved(u.journal.value)) && v == Settle(proj, u, walk)
  }

  /** Stopped anywhere, the operation has happened to the table or it has not: it has exactly when
      its commit was made and the index file can be opened. */
  lemma TableOldOrNew(proj: Tree -> Table, a: Arithmetic, w: World<Table>, v: World<Table>, o: Op, op: Operation<Table>,
                      at: Stop, walk: seq<Oid>)
    requires Episode(proj, a, w, v, o, op, at, walk)
    ensures WellKeyed(w.db)
    ensures v.db == if at.done <= CommitPoint(op) || TearsIndex(at, AllSteps(w, op)) then w.db
                    else Lifecycle.Step(a, w.db, o)
  {
    hide *;
    EpisodeIs(proj, a, w, v, o, op, at, walk);
    var u := StoppedAt(proj, w, AllSteps(w, op), at);
    CrashAtomicity(proj, w, op, at, walk);
    if TearsIndex(at, AllSteps(w, op)) {
      PreparedPlan(proj, w, op);
      OperationStops(proj, w, op, at);
      TearIsRestore(w, op, at);
      CommitPointBound(op);
      StuckWithIs(u, Journal.Save(w, op), walk);
      SettleIs(proj, u, walk, Journal.Save(w, op));
      StuckDb(proj, u, Journal.Save(w, op), walk);
    } else if at.done <= CommitPoint(op) {
      UndoneDb(w, v);
    } else {
      DoneDb(w, op, v);
    }
  }

  lemma EpisodeIs(proj: Tree -> Table, a: Arithmetic, w: World<Table>, v: World<Table>, o: Op, op: Operation<Table>,
                  at: Stop, walk: seq<Oid>)
    requires Episode(proj, a, w, v, o, op, at, walk)
    ensures Ready(proj, w) && Prepared(proj, w, op) && DistinctPaths(op.paths) && StopsIn(at, AllSteps(w, op))
    ensures IsWalk(Done(w, op).commits, op.oid, Tip(w, w.head), walk)
    ensures WellKeyed(w.db) && op.rows == Lifecycle.Step(a, w.db, o)
    ensures var u := StoppedAt(proj, w, AllSteps(w, op), at);
      (u.journal.Some? ==> WellSaved(u.journal.value)) && v == Settle(proj, u, walk)
  {
    hide Ready, Prepared, StopsIn, IsWalk, Settle, StoppedAt, WellSaved, WellKeyed, Lifecycle.Step, DistinctPaths;
  }

  lemma StuckDb(proj: Tree -> Table, u: World<Table>, saved: Saved, walk: seq<Oid>)
    requires Stuck(u, saved, walk)
    ensures Settled(proj, u, saved, walk).db == u.db
  {
    hide Stuck;
  }

  lemma UndoneDb(w: World<Table>, v: World<Table>)
    requires Undone(w, v)
    ensures v.db == w.db
  {
  }

  lemma DoneDb(w: World<Table>, op: Operation<Table>, v: World<Table>)
    requires DoneAs(w, op, v)
    ensures v.db == op.rows
  {
    hide Changed, Overlay, CommitTree, Intended;
  }

  /** Any number of operations, each stopped anywhere, the torn index included. */
  ghost predicate CrashRun(proj: Tree -> Table, a: Arithmetic, worlds: seq<World<Table>>, ops: seq<Op>,
                           plans: seq<Operation<Table>>, stops: seq<Stop>, walks: seq<seq<Oid>>)
  {
    && |worlds| == |ops| + 1 && |plans| == |stops| == |walks| == |ops|
    && forall i :: 0 <= i < |ops| ==> Episode(proj, a, worlds[i], worlds[i + 1], ops[i], plans[i], stops[i], walks[i])
  }

  /** The forest survives every crash: from a forest, every table along such a run is a forest. */
  lemma {:induction false} ForestSurvives(proj: Tree -> Table, a: Arithmetic, worlds: seq<World<Table>>, ops: seq<Op>,
                                          plans: seq<Operation<Table>>, stops: seq<Stop>, walks: seq<seq<Oid>>, n: nat)
    requires CrashRun(proj, a, worlds, ops, plans, stops, walks) && n < |worlds|
    requires WellKeyed(worlds[0].db) && Forest(worlds[0].db)
    ensures WellKeyed(worlds[n].db) && Forest(worlds[n].db)
    decreases n
  {
    hide Episode, Forest, WellKeyed, Lifecycle.Step;
    if n > 0 {
      ForestSurvives(proj, a, worlds, ops, plans, stops, walks, n - 1);
      TableOldOrNew(proj, a, worlds[n - 1], worlds[n], ops[n - 1], plans[n - 1], stops[n - 1], walks[n - 1]);
      StepKeepsForest(a, worlds[n - 1].db, ops[n - 1]);
    }
  }

  // ----- rows in files -----

  /** How a card row is written to its file and read from it. */
  datatype Codec = Codec(render: Card -> Bytes, parse: Bytes -> Option<Card>)

  ghost predicate RoundTrips(k: Codec)
  {
    forall c :: k.parse(k.render(c)) == Some(c)
  }

  /** The row of a card in one file, if the file holds that card and belongs where it is. */
  function ReadRow(k: Codec, files: Tree, p: Path, id: Id, live: bool): Option<Card>
  {
    if p !in files then None
    else
      var c := k.parse(files[p]);
      if c.Some? && c.value.id == id && c.value.Live() == live then c else None
  }

  function RowAt(k: Codec, files: Tree, id: Id): Option<Card>
    requires |id| >= 4
  {
    var live := ReadRow(k, files, LivePath(id), id, true);
    if live.Some? then live else ReadRow(k, files, TrashPath(id), id, false)
  }

  function IdsIn(k: Codec, files: Tree): set<Id>
  {
    set p | p in files && k.parse(files[p]).Some? && |k.parse(files[p]).value.id| >= 4 :: k.parse(files[p]).value.id
  }

  /** The rebuild: one row for each card file. */
  function RowsIn(k: Codec, files: Tree): Table
  {
    map id | id in IdsIn(k, files) && |id| >= 4 && RowAt(k, files, id).Some? :: RowAt(k, files, id).value
  }

  lemma RowsAre(k: Codec, files: Tree, id: Id)
    ensures Get(RowsIn(k, files), id) == if |id| >= 4 then RowAt(k, files, id) else None
    ensures id in RowsIn(k, files) ==> RowsIn(k, files)[id].id == id
  {
    hide LivePath, TrashPath;
    if |id| >= 4 && RowAt(k, files, id).Some? {
      var p := if ReadRow(k, files, LivePath(id), id, true).Some? then LivePath(id) else TrashPath(id);
      assert p in files && k.parse(files[p]).Some? && k.parse(files[p]).value.id == id;
      assert id in IdsIn(k, files);
    }
  }

  /** What rewriting one row asks of the files. */
  function ChangeFor(k: Codec, t: Table, t': Table, id: Id): CardChange
    requires |id| >= 4 && id in t && id in t'
  {
    CardChange(id, LivePath(id), !t[id].Live(), !t'[id].Live(), k.render(t'[id]))
  }

  /** One change for each row that differs, and perhaps for others. */
  ghost predicate Covers(k: Codec, t: Table, t': Table, changes: seq<CardChange>)
  {
    && DistinctCards(changes)
    && (forall c :: c in changes ==> |c.id| >= 4 && c.id in t && c.id in t' && c == ChangeFor(k, t, t', c.id))
    && (forall id :: id in t && id in t' && t[id] != t'[id] ==> Changes(changes, id))
  }

  ghost predicate Changes(changes: seq<CardChange>, id: Id)
  {
    exists i :: 0 <= i < |changes| && changes[i].id == id
  }

  /** A file that no change names is left alone. */
  lemma FileUntouched(files: Tree, changes: seq<CardChange>, p: Path)
    requires forall c :: c in changes ==> |c.id| >= 4
    requires forall c :: c in changes ==> |c.id| >= 4 && p != SourceOf(c) && p != TargetOf(c)
    ensures Get(Changed(files, Intended(RenamesOf(changes), WritesOf(changes))), p) == Get(files, p)
  {
    hide SourceOf, TargetOf, Changed;
    var renames, writes := RenamesOf(changes), WritesOf(changes);
    var gone: map<Path, Option<Bytes>> := map q | q in Sources(renames) :: None;
    forall r | r in renames
      ensures r.0 != p
    {
      var i := RenameComes(changes, r);
      assert changes[i] in changes;
    }
    forall i | 0 <= i < |writes|
      ensures writes[i].0 != p
    {
      assert changes[i] in changes;
    }
    PutAllSomes(map q | q in Written(writes) && q !in Sources(renames) :: "", gone, writes, p);
  }

  /** Card files of different cards are different files. */
  lemma OtherCard(changes: seq<CardChange>, id: Id, p: Path)
    requires |id| >= 4 && (p == LivePath(id) || p == TrashPath(id)) && !Changes(changes, id)
    requires forall c :: c in changes ==> |c.id| >= 4
    ensures forall c :: c in changes ==> |c.id| >= 4 && p != SourceOf(c) && p != TargetOf(c)
  {
    hide LivePath, TrashPath;
    forall c | c in changes
      ensures p != SourceOf(c) && p != TargetOf(c)
    {
      var i :| 0 <= i < |changes| && changes[i] == c;
      PathsDiffer(id, c.id);
      PathsDiffer(c.id, id);
    }
  }

  lemma SameRow(k: Codec, files: Tree, after: Tree, id: Id)
    requires |id| >= 4
    requires Get(after, LivePath(id)) == Get(files, LivePath(id))
    requires Get(after, TrashPath(id)) == Get(files, TrashPath(id))
    ensures RowAt(k, after, id) == RowAt(k, files, id)
  {
    hide LivePath, TrashPath;
  }

  /** A rewritten row is read back. */
  lemma RowRewritten(k: Codec, files: Tree, after: Tree, c: CardChange, now: Card)
    requires RoundTrips(k) && |c.id| >= 4 && now.id == c.id && c.deletedAfter == !now.Live() && c.bytes == k.render(now)
    requires Get(after, TargetOf(c)) == Some(c.bytes)
    requires SourceOf(c) != TargetOf(c) ==> Get(after, SourceOf(c)) == None
    requires SourceOf(c) == TargetOf(c) && c.deleted ==> ReadRow(k, after, LivePath(c.id), c.id, true).None?
    ensures RowAt(k, after, c.id) == Some(now)
  {
    PathsDiffer(c.id, c.id);
    hide LivePath, TrashPath;
    assert k.parse(k.render(now)) == Some(now);
  }

  /** The file at the other path of a trashed card stays unread. */
  lemma {:induction false} LiveUnread(k: Codec, files: Tree, after: Tree, changes: seq<CardChange>, i: nat)
    requires (forall c :: c in changes ==> |c.id| >= 4) && DistinctCards(changes) && i < |changes|
    requires changes[i].deleted && changes[i].deletedAfter
    requires after == Changed(files, Intended(RenamesOf(changes), WritesOf(changes)))
    ensures |changes[i].id| >= 4 && Get(after, LivePath(changes[i].id)) == Get(files, LivePath(changes[i].id))
  {
    hide LivePath, TrashPath, Changed;
    var x := changes[i];
    assert x in changes;
    forall c | c in changes
      ensures LivePath(x.id) != SourceOf(c) && LivePath(x.id) != TargetOf(c)
    {
      var j :| 0 <= j < |changes| && changes[j] == c;
      PathsDiffer(x.id, c.id);
      PathsDiffer(c.id, x.id);
    }
    FileUntouched(files, changes, LivePath(x.id));
  }

  /** Writing the changed rows to their files is writing them to the table. */
  lemma RowsFollow(k: Codec, files: Tree, t': Table, changes: seq<CardChange>)
    requires RoundTrips(k) && WellKeyed(t') && t'.Keys == RowsIn(k, files).Keys
    requires Covers(k, RowsIn(k, files), t', changes)
    ensures forall c :: c in changes ==> |c.id| >= 4
    ensures RowsIn(k, Changed(files, Intended(RenamesOf(changes), WritesOf(changes)))) == t'
  {
    hide *;
    var t := RowsIn(k, files);
    CoversIds(k, t, t', changes);
    var after := Changed(files, Intended(RenamesOf(changes), WritesOf(changes)));
    forall id
      ensures Get(RowsIn(k, after), id) == Get(t', id)
    {
      RowFollows(k, files, t', changes, after, id);
    }
    SameMap(RowsIn(k, after), t');
  }

  lemma CoversIds(k: Codec, t: Table, t': Table, changes: seq<CardChange>)
    requires Covers(k, t, t', changes)
    ensures (forall c :: c in changes ==> |c.id| >= 4) && DistinctCards(changes)
  {
    hide ChangeFor, Changes, DistinctCards;
  }

  lemma RowFollows(k: Codec, files: Tree, t': Table, changes: seq<CardChange>, after: Tree, id: Id)
    requires RoundTrips(k) && WellKeyed(t') && t'.Keys == RowsIn(k, files).Keys
    requires Covers(k, RowsIn(k, files), t', changes)
    requires (forall c :: c in changes ==> |c.id| >= 4) && DistinctCards(changes)
    requires after == Changed(files, Intended(RenamesOf(changes), WritesOf(changes)))
    ensures Get(RowsIn(k, after), id) == Get(t', id)
  {
    hide *;
    var t := RowsIn(k, files);
    RowsAre(k, files, id);
    RowsAre(k, after, id);
    SameKeys(t, t', id);
    if |id| >= 4 {
      if Changes(changes, id) {
        var i := ChangeAt(k, t, t', changes, id);
        var c := changes[i];
        var op := Operation([], RenamesOf(changes), WritesOf(changes), 0, t');
        ChangesMean(files, changes, op, i);
        if c.deleted && c.deletedAfter {
          LiveUnread(k, files, after, changes, i);
          TrashedRow(k, files, after, id);
        }
        SourceMeans(c);
        RowRewritten(k, files, after, c, t'[id]);
      } else {
        OtherCard(changes, id, LivePath(id));
        OtherCard(changes, id, TrashPath(id));
        FileUntouched(files, changes, LivePath(id));
        FileUntouched(files, changes, TrashPath(id));
        SameRow(k, files, after, id);
        Uncovered(k, t, t', changes, id);
      }
    }
  }

  lemma SameKeys(t: Table, t': Table, id: Id)
    requires t.Keys == t'.Keys
    ensures id in t <==> id in t'
    ensures Get(t, id) == if id in t then Some(t[id]) else None
    ensures Get(t', id) == if id in t' then Some(t'[id]) else None
  {
    assert id in t.Keys <==> id in t'.Keys;
  }

  lemma ChangeAt(k: Codec, t: Table, t': Table, changes: seq<CardChange>, id: Id) returns (i: nat)
    requires Covers(k, t, t', changes) && WellKeyed(t') && Changes(changes, id)
    ensures i < |changes| && changes[i].id == id && |id| >= 4 && id in t && id in t' && t'[id].id == id
    ensures var c := changes[i];
      c.deleted == !t[id].Live() && c.deletedAfter == !t'[id].Live() && c.bytes == k.render(t'[id])
  {
    hide LivePath;
    i :| 0 <= i < |changes| && changes[i].id == id;
    assert changes[i] in changes;
  }

  /** A row read as trashed was not read from the live file. */
  lemma TrashedRow(k: Codec, files: Tree, after: Tree, id: Id)
    requires |id| >= 4 && id in RowsIn(k, files) && !RowsIn(k, files)[id].Live()
    requires Get(after, LivePath(id)) == Get(files, LivePath(id))
    ensures ReadRow(k, after, LivePath(id), id, true).None?
  {
    hide LivePath, TrashPath, IdsIn;
    assert ReadRow(k, after, LivePath(id), id, true) == ReadRow(k, files, LivePath(id), id, true);
  }

  lemma SourceMeans(c: CardChange)
    requires |c.id| >= 4
    ensures SourceOf(c) == TargetOf(c) <==> c.deleted == c.deletedAfter
  {
    PathsDiffer(c.id, c.id);
    hide LivePath, TrashPath;
  }

  lemma Uncovered(k: Codec, t: Table, t': Table, changes: seq<CardChange>, id: Id)
    requires Covers(k, t, t', changes) && !Changes(changes, id)
    ensures id in t && id in t' ==> t'[id] == t[id]
  {
    hide Changes, ChangeFor, DistinctCards;
  }

  /** A journalled operation whose changes pass the checks of `apply_card_changes` begins: the
      planned files carry exactly the rows of its step. */
  lemma JournalledBegins(k: Codec, a: Arithmetic, w: World<Table>, o: Op, changes: seq<CardChange>,
                         op: Operation<Table>)
    requires RoundTrips(k) && Ready(files => RowsIn(k, files), w) && WellKeyed(w.db) && !Unjournalled(o)
    requires WellKeyed(w.db) && Covers(k, w.db, Lifecycle.Step(a, w.db, o), changes)
    requires forall c :: c in changes ==> |c.id| >= 4
    requires Planned(w.files, op) && DistinctPaths(op.paths)
    requires op.renames == RenamesOf(changes) && op.writes == WritesOf(changes)
    requires op.rows == Lifecycle.Step(a, w.db, o) && forall c :: c in w.commits ==> c < op.oid
    ensures Begins(files => RowsIn(k, files), a, w, o, op)
  {
    hide Lifecycle.Step, RowsIn, Covers, Planned, DistinctPaths, WellKeyed, RenamesOf, WritesOf, Changed, Intended;
    assert w.db == RowsIn(k, w.files);
    JournalledKeepsRows(a, w.db, o);
    RowsFollow(k, w.files, Lifecycle.Step(a, w.db, o), changes);
  }

  /** ... as its own planning shows. */
  method PlanJournalled(k: Codec, ghost a: Arithmetic, w: World<Table>, ghost o: Op, changes: seq<CardChange>, oid: Oid,
                        rows: Table)
    returns (r: Result<Operation<Table>>)
    requires RoundTrips(k) && Ready(files => RowsIn(k, files), w) && WellKeyed(w.db) && !Unjournalled(o)
    requires rows == Lifecycle.Step(a, w.db, o) && Covers(k, w.db, rows, changes) && forall c :: c in w.commits ==>
      c < oid
    ensures r.Ok? <==> forall c :: c in changes ==> Acceptable(w.files, c)
    ensures r.Ok? ==> Begins(files => RowsIn(k, files), a, w, o, r.value) && r.value.rows == rows
  {
    hide Lifecycle.Step, Covers, Planned, DistinctPaths, WellKeyed, Ready, Acceptable, PathOf, Begins;
    CoversIds(k, w.db, rows, changes);
    r := PlanChanges(w.files, changes, oid, rows);
    if r.Ok? { JournalledBegins(k, a, w, o, changes, r.value); }
  }
}

/** Planning a journalled mutation: the checks and the path set of `apply_card_changes`, before
    anything is written. */
module Mutation {
  import opened Common
  import opened Journal
  import opened Recovery
  import opened Atomicity

  // ----- planning the changes -----

  /** `card_rel_path` and `card_trash_rel_path`. */
  function LivePath(id: string): Path
    requires |id| >= 4
  {
    "cards/" + id[..2] + "/" + id[2..4] + "/" + id + ".md"
  }

  function TrashPath(id: string): Path
    requires |id| >= 4
  {
    "trash/" + LivePath(id)
  }

  /** One card to rewrite: where it is recorded, whether it is in the trash now and afterwards,
      and its new bytes. */
  datatype CardChange = CardChange(id: string, relPath: Path, deleted: bool, deletedAfter: bool, bytes: Bytes)

  function SourceOf(c: CardChange): Path
    requires |c.id| >= 4
  {
    if c.deleted then TrashPath(c.id) else LivePath(c.id)
  }

  function TargetOf(c: CardChange): Path
    requires |c.id| >= 4
  {
    if c.deletedAfter then TrashPath(c.id) else LivePath(c.id)
  }

  predicate Acceptable(files: Tree, c: CardChange)
  {
    && |c.id| >= 4
    && (c.relPath == LivePath(c.id) || (c.deleted && c.relPath == TrashPath(c.id)))
    && SourceOf(c) in files
    && (SourceOf(c) != TargetOf(c) ==> TargetOf(c) !in files)
  }

  lemma PathsDiffer(a: string, b: string)
    requires |a| >= 4 && |b| >= 4
    ensures LivePath(a) != TrashPath(b)
    ensures LivePath(a) == LivePath(b) <==> a == b
    ensures TrashPath(a) == TrashPath(b) <==> a == b
  {
    assert LivePath(a)[0] == 'c' && TrashPath(b)[0] == 't';
    IdFromPath(a);
    IdFromPath(b);
    assert TrashPath(a)[6..] == LivePath(a) && TrashPath(b)[6..] == LivePath(b);
  }

  lemma IdFromPath(a: string)
    requires |a| >= 4
    ensures |LivePath(a)| == |a| + 15 && LivePath(a)[12..|a| + 12] == a
  {
    var head := "cards/" + a[..2] + "/" + a[2..4] + "/";
    assert LivePath(a) == head + (a + ".md") && |head| == 12;
  }

  /** A `std::set` of paths, as the sorted sequence it iterates over. */
  ghost predicate Ascending(paths: seq<Path>)
  {
    forall i, j :: 0 <= i < j < |paths| ==> StrLess(paths[i], paths[j])
  }

  function Insert(paths: seq<Path>, p: Path): (r: seq<Path>)
    requires Ascending(paths)
    ensures Ascending(r) && forall q :: q in r <==> q == p || q in paths
    decreases |paths|
  {
    if paths == [] then [p]
    else if paths[0] == p then paths
    else
      StrLessTotal(paths[0], p);
      if StrLess(p, paths[0]) then
        InsertFront(paths, p);
        [p] + paths
      else
        assert forall q :: q in paths <==> q == paths[0] || q in paths[1..];
        var rest := Insert(paths[1..], p);
        BelowAll(paths, p, rest);
        [paths[0]] + rest
  }

  lemma InsertFront(paths: seq<Path>, p: Path)
    requires Ascending(paths) && paths != [] && StrLess(p, paths[0])
    ensures Ascending([p] + paths)
  {
    forall j | 0 <= j < |paths|
      ensures StrLess(p, paths[j])
    {
      if j > 0 { StrLessTransitive(p, paths[0], paths[j]); }
    }
  }

  lemma BelowAll(paths: seq<Path>, p: Path, rest: seq<Path>)
    requires Ascending(paths) && paths != [] && Ascending(rest) && StrLess(paths[0], p)
    requires forall q :: q in rest <==> q == p || q in paths[1..]
    ensures Ascending([paths[0]] + rest)
  {
    forall j | 0 <= j < |rest|
      ensures StrLess(paths[0], rest[j])
    {
      assert rest[j] in rest;
    }
  }

  lemma AscendingDistinct(paths: seq<Path>)
    requires Ascending(paths)
    ensures DistinctPaths(paths)
  {
    forall i, j | 0 <= i < j < |paths|
      ensures paths[i] != paths[j]
    {
      StrLessIrreflexive(paths[i]);
    }
  }

  function RenamesOf(changes: seq<CardChange>): seq<(Path, Path)>
    requires forall c :: c in changes ==> |c.id| >= 4
  {
    if changes == [] then []
    else
      var c := changes[|changes| - 1];
      RenamesOf(changes[..|changes| - 1]) + if SourceOf(c) != TargetOf(c) then [(SourceOf(c), TargetOf(c))] else []
  }

  function WritesOf(changes: seq<CardChange>): (r: seq<(Path, Bytes)>)
    requires forall c :: c in changes ==> |c.id| >= 4
    ensures |r| == |changes| && forall i :: 0 <= i < |r| ==> r[i] == (TargetOf(changes[i]), changes[i].bytes)
  {
    seq(|changes|, i requires 0 <= i < |changes| => (TargetOf(changes[i]), changes[i].bytes))
  }

  ghost predicate PathOf(changes: seq<CardChange>, p: Path)
  {
    exists c :: c in changes && |c.id| >= 4 && (p == LivePath(c.id) || p == TrashPath(c.id))
  }

  /** The checking half of `apply_card_changes`: every change acceptable, or nothing is begun. */
  method PlanChanges<D>(files: Tree, changes: seq<CardChange>, oid: Oid, rows: D) returns (r: Result<Operation<D>>)
    ensures r.Ok? <==> forall c :: c in changes ==> Acceptable(files, c)
    ensures r.Ok? ==>
      Planned(files, r.value) && DistinctPaths(r.value.paths) && r.value.oid == oid && r.value.rows == rows
    ensures r.Ok? ==> r.value.renames == RenamesOf(changes) && r.value.writes == WritesOf(changes)
    ensures r.Ok? ==> forall p :: p in r.value.paths <==> PathOf(changes, p)
  {
    hide LivePath, TrashPath, Insert, PathOf, Ascending;
    var paths: seq<Path>, renames: seq<(Path, Path)>, writes: seq<(Path, Bytes)> := [], [], [];
    NoPaths();
    for i := 0 to |changes|
      invariant forall c :: c in changes[..i] ==> Acceptable(files, c)
      invariant Ascending(paths) && forall p :: p in paths <==> PathOf(changes[..i], p)
      invariant renames == RenamesOf(changes[..i]) && writes == WritesOf(changes[..i])
    {
      var c := changes[i];
      if !Acceptable(files, c) {
        return Err(if |c.id| < 4 then "card_id too short for path sharding"
                   else if c.relPath != LivePath(c.id) && !(c.deleted && c.relPath == TrashPath(c.id))
                   then "card rel_path does not match card_id"
                   else if SourceOf(c) !in files then "card content missing"
                   else "conflict: destination card file already exists");
      }
      assert changes[..i + 1] == changes[..i] + [c];
      assert changes[..i + 1][..i] == changes[..i];
      if SourceOf(c) != TargetOf(c) { renames := renames + [(SourceOf(c), TargetOf(c))]; }
      writes := writes + [(TargetOf(c), c.bytes)];
      OnePathMore(changes[..i], c);
      paths := Insert(Insert(paths, LivePath(c.id)), TrashPath(c.id));
    }
    assert changes[..|changes|] == changes;
    AscendingDistinct(paths);
    var op := Operation(paths, renames, writes, oid, rows);
    PlannedChanges(files, changes, op);
    r := Ok(op);
  }

  lemma NoPaths()
    ensures Ascending([]) && forall p :: !PathOf([], p)
  {
  }

  lemma OnePathMore(changes: seq<CardChange>, c: CardChange)
    requires |c.id| >= 4
    ensures forall p :: PathOf(changes + [c], p) <==> PathOf(changes, p) || p == LivePath(c.id) || p == TrashPath(c.id)
  {
    hide LivePath, TrashPath;
    forall p
      ensures PathOf(changes + [c], p) <==> PathOf(changes, p) || p == LivePath(c.id) || p == TrashPath(c.id)
    {
      assert c in changes + [c];
      assert forall d :: d in changes + [c] <==> d in changes || d == c;
    }
  }

  lemma {:induction false} RenameComes(changes: seq<CardChange>, r: (Path, Path)) returns (i: nat)
    requires (forall c :: c in changes ==> |c.id| >= 4) && r in RenamesOf(changes)
    ensures i < |changes| && SourceOf(changes[i]) != TargetOf(changes[i])
    ensures r == (SourceOf(changes[i]), TargetOf(changes[i]))
    decreases |changes|
  {
    hide SourceOf, TargetOf;
    i := |changes| - 1;
    if r in RenamesOf(changes[..i]) { i := RenameComes(changes[..i], r); }
  }

  lemma PlannedChanges<D>(files: Tree, changes: seq<CardChange>, op: Operation<D>)
    requires forall c :: c in changes ==> |c.id| >= 4 && Acceptable(files, c)
    requires op.renames == RenamesOf(changes) && op.writes == WritesOf(changes)
    requires forall p :: p in op.paths <==> PathOf(changes, p)
    ensures Planned(files, op)
  {
    hide LivePath, TrashPath;
    forall r | r in op.renames
      ensures r.0 in files && r.1 !in files && r.1 in Written(op.writes) && r.0 in op.paths
    {
      var i := RenameComes(changes, r);
      assert changes[i] in changes && op.writes[i] in op.writes;
    }
    forall p | p in Written(op.writes)
      ensures p in op.paths
    {
      var i :| 0 <= i < |op.writes| && op.writes[i].0 == p;
      assert changes[i] in changes;
    }
  }

  // ----- what the plan says about each file -----

  ghost predicate DistinctCards(changes: seq<CardChange>)
  {
    forall i, j :: 0 <= i < j < |changes| ==> changes[i].id != changes[j].id
  }

  lemma {:induction false} PutAllAt<V>(m: map<Path, V>, writes: seq<(Path, V)>, i: nat)
    requires i < |writes| && forall j :: i < j < |writes| ==> writes[j].0 != writes[i].0
    ensures Get(PutAll(m, writes), writes[i].0) == Some(writes[i].1)
    decreases |writes|
  {
    var m1 := m[writes[0].0 := writes[0].1];
    if i == 0 { PutAllElsewhere(m1, writes[1..], writes[0].0); } else { PutAllAt(m1, writes[1..], i - 1); }
  }

  lemma {:induction false} RenameGoes(changes: seq<CardChange>, i: nat)
    requires (forall c :: c in changes ==> |c.id| >= 4) && i < |changes| && SourceOf(changes[i]) != TargetOf(changes[i])
    ensures (SourceOf(changes[i]), TargetOf(changes[i])) in RenamesOf(changes)
    decreases |changes|
  {
    hide SourceOf, TargetOf;
    if i < |changes| - 1 { RenameGoes(changes[..|changes| - 1], i); }
  }

  /** Every card ends in exactly one of its two files, with its new bytes. */
  lemma {:induction false} ChangesMean<D>(files: Tree, changes: seq<CardChange>, op: Operation<D>, i: nat)
    requires (forall c :: c in changes ==> |c.id| >= 4) && DistinctCards(changes) && i < |changes|
    requires op.renames == RenamesOf(changes) && op.writes == WritesOf(changes)
    ensures var c, after := changes[i], Changed(files, Intended(op.renames, op.writes));
      && Get(after, TargetOf(c)) == Some(c.bytes)
      && (SourceOf(c) != TargetOf(c) ==> Get(after, SourceOf(c)) == None)
  {
    hide SourceOf, TargetOf, Changed, RenamesOf;
    var c := changes[i];
    var gone: map<Path, Option<Bytes>> := map p | p in Sources(op.renames) :: None;
    forall j | 0 <= j < |changes| && j != i
      ensures op.writes[j].0 != TargetOf(c) && op.writes[j].0 != SourceOf(c)
    {
      FilesApart(changes[j], c);
    }
    PutAllAt(gone, Somes(op.writes), i);
    if SourceOf(c) != TargetOf(c) {
      RenameGoes(changes, i);
      PutAllElsewhere(gone, Somes(op.writes), SourceOf(c));
      assert SourceOf(c) in Sources(op.renames);
    }
  }

  lemma FilesApart(c: CardChange, d: CardChange)
    requires |c.id| >= 4 && |d.id| >= 4 && c.id != d.id
    ensures TargetOf(c) != TargetOf(d) && TargetOf(c) != SourceOf(d)
  {
    hide LivePath, TrashPath;
    PathsDiffer(c.id, d.id);
    PathsDiffer(d.id, c.id);
  }
}

/** One journalled card mutation as a sequence of durable steps: `CardMutation` of
    src/card/CardMutation.cpp inside `CardStore::apply_card_changes`. */
module Journal {
  import opened Common

  type Path = string
  type Bytes = string
  type Ref = string
  type Oid = nat
  type Tree = map<Path, Bytes>

  datatype Commit = Commit(parents: seq<Oid>, tree: Tree)

  /** The index file: absent, a complete file, or the prefix an interrupted write left. */
  datatype IndexFile = NoIndex | Index(entries: Tree) | TornIndex

  /** The journal's temporary file, renamed into place only when it is whole. */
  datatype Scratch = NoScratch | PartialScratch | WholeScratch

  /** The journal: every affected path with its original bytes, the changed ones with their
      intended bytes too (None removes the file), the index file, and HEAD. */
  datatype Saved = Saved(
    order: seq<Path>,
    before: map<Path, Option<Bytes>>,
    after: map<Path, Option<Bytes>>,
    index: IndexFile,
    head: Option<Oid>,
    branch: Ref)

  /** Everything that survives the process. `db` is the committed content of the database;
      an open transaction is lost with the process. */
  datatype World<D> = World(
    files: Tree,
    index: IndexFile,
    commits: map<Oid, Commit>,
    refs: map<Ref, Oid>,
    head: Ref,
    journal: Option<Saved>,
    scratch: Scratch,
    db: D)

  // ----- durable steps -----

  datatype Prim<D> =
    | WriteScratch
    | PublishJournal(saved: Saved)
    | RemoveJournal
    | ResetIndex
    | Unstage(path: Path)
    | Stage(path: Path)
    | RestoreIndex(file: IndexFile)
    | OverlayIndex(tree: Tree, paths: seq<Path>)
    | RenameFile(from: Path, to: Path)
    | WriteFile(path: Path, bytes: Bytes)
    | RemoveFile(path: Path)
    | MakeCommit(oid: Oid)
    | SetBranch(branch: Ref, oid: Oid)
    | DropBranch(branch: Ref)
    | CommitSql(rows: D)
    | RebuildSql

  function Entries(f: IndexFile): Tree
  {
    if f.Index? then f.entries else map[]
  }

  function Tip<D>(w: World<D>, branch: Ref): Option<Oid>
  {
    Get(w.refs, branch)
  }

  function HeadTree<D>(w: World<D>): Tree
  {
    if w.head in w.refs && w.refs[w.head] in w.commits then w.commits[w.refs[w.head]].tree else map[]
  }

  /** `base` with the entries at `paths` taken from `tree`. */
  function Overlay(base: Tree, tree: Tree, paths: seq<Path>): (r: Tree)
    ensures forall p :: Get(r, p) == if p in paths then Get(tree, p) else Get(base, p)
  {
    map p | p in base.Keys + tree.Keys && (if p in paths then p in tree else p in base) ::
      if p in paths then tree[p] else base[p]
  }

  function ParentsOf(head: Option<Oid>): seq<Oid>
  {
    if head.Some? then [head.value] else []
  }

  /** The effect of one step that is carried out completely. */
  function Eff<D>(proj: Tree -> D, w: World<D>, s: Prim<D>): World<D>
  {
    match s
    case WriteScratch => w.(scratch := WholeScratch)
    case PublishJournal(saved) => w.(journal := Some(saved), scratch := NoScratch)
    case RemoveJournal => w.(journal := None)
    case ResetIndex => w.(index := Index(HeadTree(w)))
    case Unstage(p) => w.(index := Index(Entries(w.index) - {p}))
    case Stage(p) => if p in w.files then w.(index := Index(Entries(w.index)[p := w.files[p]])) else w
    case RestoreIndex(f) => w.(index := f)
    case OverlayIndex(tree, paths) => w.(index := Index(Overlay(Entries(w.index), tree, paths)))
    case RenameFile(from, to) =>
      if from in w.files then w.(files := (w.files - {from})[to := w.files[from]]) else w
    case WriteFile(p, bytes) => w.(files := w.files[p := bytes])
    case RemoveFile(p) => w.(files := w.files - {p})
    case MakeCommit(oid) =>
      w.(commits := w.commits[oid := Commit(ParentsOf(Tip(w, w.head)), Entries(w.index))],
         refs := w.refs[w.head := oid])
    case SetBranch(b, oid) => w.(refs := w.refs[b := oid])
    case DropBranch(b) => w.(refs := w.refs - {b})
    case CommitSql(rows) => w.(db := rows)
    case RebuildSql => w.(db := proj(w.files))
  }

  /** The effect of a step interrupted part-way: a plain file write leaves a prefix, a plain
      write of the index file leaves a torn one; everything else is a rename, a lock-and-rename
      or a transaction, and leaves nothing but, possibly, a lock file, which is not modelled. */
  function Tear<D>(w: World<D>, s: Prim<D>, written: nat): World<D>
  {
    match s
    case WriteScratch => w.(scratch := PartialScratch)
    case WriteFile(p, bytes) => w.(files := w.files[p := Prefix(bytes, written)])
    case RestoreIndex(f) => if f.NoIndex? then w else w.(index := TornIndex)
    case _ => w
  }

  function Prefix(bytes: Bytes, n: nat): Bytes
  {
    if n < |bytes| then bytes[..n] else bytes
  }

  function Run<D>(proj: Tree -> D, w: World<D>, steps: seq<Prim<D>>): World<D>
    decreases |steps|
  {
    if steps == [] then w else Run(proj, Eff(proj, w, steps[0]), steps[1..])
  }

  lemma {:induction false} RunConcat<D>(proj: Tree -> D, w: World<D>, s: seq<Prim<D>>, t: seq<Prim<D>>)
    ensures Run(proj, w, s + t) == Run(proj, Run(proj, w, s), t)
    decreases |s|
  {
    if s == [] {
      assert s + t == t;
    } else {
      assert (s + t)[1..] == s[1..] + t;
      RunConcat(proj, Eff(proj, w, s[0]), s[1..], t);
    }
  }

  lemma RunOne<D>(proj: Tree -> D, w: World<D>, s: Prim<D>)
    ensures Run(proj, w, [s]) == Eff(proj, w, s)
  {
    assert [s][1..] == [];
  }

  /** Where a run can stop: after `done` whole steps, possibly in the middle of the next. */
  datatype Stop = Stop(done: nat, torn: Option<nat>)

  ghost predicate StopsIn<D>(at: Stop, steps: seq<Prim<D>>)
  {
    at.done <= |steps| && (at.torn.Some? ==> at.done < |steps|)
  }

  function StoppedAt<D>(proj: Tree -> D, w: World<D>, steps: seq<Prim<D>>, at: Stop): World<D>
    requires StopsIn(at, steps)
  {
    var u := Run(proj, w, steps[..at.done]);
    if at.torn.Some? then Tear(u, steps[at.done], at.torn.value) else u
  }

  // ----- torn index files -----

  /** The plain write of an index file. All other index writes go through a lock file. */
  predicate WritesIndexFile<D>(s: Prim<D>)
  {
    s.RestoreIndex? && !s.file.NoIndex?
  }

  /** The stop is inside the plain write of an index file. */
  ghost predicate TearsIndex<D>(at: Stop, steps: seq<Prim<D>>)
  {
    at.torn.Some? && at.done < |steps| && WritesIndexFile(steps[at.done])
  }

  /** Only whole index files are ever written back. */
  ghost predicate WholeIndexes<D>(steps: seq<Prim<D>>)
  {
    forall s :: s in steps && s.RestoreIndex? ==> !s.file.TornIndex?
  }

  lemma {:induction false} RunKeepsIndexWhole<D>(proj: Tree -> D, w: World<D>, steps: seq<Prim<D>>)
    requires WholeIndexes(steps) && !w.index.TornIndex?
    ensures !Run(proj, w, steps).index.TornIndex?
    decreases |steps|
  {
    hide WholeIndexes, Eff;
    if steps != [] {
      StepKeepsIndexWhole(proj, w, steps);
      RunKeepsIndexWhole(proj, Eff(proj, w, steps[0]), steps[1..]);
    }
  }

  lemma StepKeepsIndexWhole<D>(proj: Tree -> D, w: World<D>, steps: seq<Prim<D>>)
    requires WholeIndexes(steps) && !w.index.TornIndex? && steps != []
    ensures !Eff(proj, w, steps[0]).index.TornIndex? && WholeIndexes(steps[1..])
  {
    assert steps[0] in steps;
    assert forall s :: s in steps[1..] ==> s in steps;
  }

  /** A run leaves a torn index file exactly when it is stopped inside the write of one. */
  lemma TornExactly<D>(proj: Tree -> D, w: World<D>, steps: seq<Prim<D>>, at: Stop)
    requires StopsIn(at, steps) && WholeIndexes(steps) && !w.index.TornIndex?
    ensures StoppedAt(proj, w, steps, at).index.TornIndex? <==> TearsIndex(at, steps)
  {
    hide Run;
    assert WholeIndexes(steps[..at.done]);
    RunKeepsIndexWhole(proj, w, steps[..at.done]);
  }

  // ----- the operation -----

  /** What `apply_card_changes` decided before its first write. */
  datatype Operation<D> = Operation(
    paths: seq<Path>,
    renames: seq<(Path, Path)>,
    writes: seq<(Path, Bytes)>,
    oid: Oid,
    rows: D)

  function Sources(renames: seq<(Path, Path)>): set<Path>
  {
    set r | r in renames :: r.0
  }

  function Targets(renames: seq<(Path, Path)>): set<Path>
  {
    set r | r in renames :: r.1
  }

  function Written(writes: seq<(Path, Bytes)>): set<Path>
  {
    set r | r in writes :: r.0
  }

  function PutAll<V>(m: map<Path, V>, writes: seq<(Path, V)>): map<Path, V>
    decreases |writes|
  {
    if writes == [] then m else PutAll(m[writes[0].0 := writes[0].1], writes[1..])
  }

  function Somes(writes: seq<(Path, Bytes)>): (r: seq<(Path, Option<Bytes>)>)
    ensures |r| == |writes| && forall i :: 0 <= i < |r| ==> r[i] == (writes[i].0, Some(writes[i].1))
  {
    seq(|writes|, i requires 0 <= i < |writes| => (writes[i].0, Some(writes[i].1)))
  }

  /** `file_changes`: renamed files go, written files hold their bytes. */
  function Intended(renames: seq<(Path, Path)>, writes: seq<(Path, Bytes)>): map<Path, Option<Bytes>>
  {
    PutAll(map p | p in Sources(renames) :: None, Somes(writes))
  }

  function SnapshotOf(files: Tree, paths: seq<Path>): map<Path, Option<Bytes>>
  {
    map p | p in paths :: Get(files, p)
  }

  /** The journal contents: the constructor of `CardMutation`. */
  function Save<D>(w: World<D>, op: Operation<D>): Saved
  {
    Saved(op.paths, SnapshotOf(w.files, op.paths), Intended(op.renames, op.writes), w.index, Tip(w, w.head), w.head)
  }

  /** `m` with the intended changes made. */
  function Changed(m: Tree, after: map<Path, Option<Bytes>>): (r: Tree)
    ensures forall p :: Get(r, p) == if p in after then after[p] else Get(m, p)
  {
    map p | p in m.Keys + after.Keys && (if p in after then after[p].Some? else p in m) ::
      if p in after then after[p].value else m[p]
  }

  function RenameSteps<D>(renames: seq<(Path, Path)>): seq<Prim<D>>
  {
    if renames == [] then []
    else [RenameFile(renames[0].0, renames[0].1), Unstage(renames[0].0)] + RenameSteps(renames[1..])
  }

  function WriteSteps<D>(writes: seq<(Path, Bytes)>): seq<Prim<D>>
  {
    if writes == [] then []
    else [WriteFile(writes[0].0, writes[0].1), Stage(writes[0].0)] + WriteSteps(writes[1..])
  }

  /** The tree of the operation's commit. */
  function CommitTree<D>(w: World<D>, op: Operation<D>): Tree
  {
    Changed(HeadTree(w), Intended(op.renames, op.writes))
  }

  function BeginSteps<D>(saved: Saved): seq<Prim<D>>
  {
    [WriteScratch, PublishJournal(saved)]
  }

  /** Between the journal and the commit: everything here is undone by the journal. */
  function WorkSteps<D>(op: Operation<D>): seq<Prim<D>>
  {
    [ResetIndex] + RenameSteps(op.renames) + WriteSteps(op.writes)
  }

  /** After the commit: `preserve_unrelated_index` and the SQL commit. */
  function LandSteps<D>(w: World<D>, op: Operation<D>): seq<Prim<D>>
  {
    [RestoreIndex(w.index), OverlayIndex(CommitTree(w, op), op.paths), CommitSql(op.rows)]
  }

  /** The try block of `apply_card_changes`. */
  function TrySteps<D>(w: World<D>, op: Operation<D>): seq<Prim<D>>
  {
    BeginSteps(Save(w, op)) + (WorkSteps(op) + ([MakeCommit(op.oid)] + LandSteps(w, op)))
  }

  /** ... and `finish` after it. */
  function AllSteps<D>(w: World<D>, op: Operation<D>): seq<Prim<D>>
  {
    TrySteps(w, op) + [RemoveJournal]
  }

  // ----- what the operation needs -----

  /** Git history: parents exist and are older. An oid is a hash of the parents, so no
      commit is its own ancestor. */
  ghost predicate History(commits: map<Oid, Commit>)
  {
    forall c, i :: c in commits && 0 <= i < |commits[c].parents| ==>
      commits[c].parents[i] in commits && commits[c].parents[i] < c
  }

  /** A settled repository: no journal, a readable index, refs into the history, and a
      database that is the projection of the files. */
  ghost predicate Ready<D>(proj: Tree -> D, w: World<D>)
  {
    && w.journal.None? && !w.index.TornIndex? && w.db == proj(w.files) && History(w.commits)
    && (w.head in w.refs ==> w.refs[w.head] in w.commits)
  }

  /** What `apply_card_changes` has checked: renamed files exist, their destinations do not,
      each destination is then written, and everything touched is journaled. The new commit
      is a new object, and the rows written are those of the files written. */
  ghost predicate Prepared<D>(proj: Tree -> D, w: World<D>, op: Operation<D>)
  {
    && Planned(w.files, op)
    && (forall c :: c in w.commits ==> c < op.oid)
    && op.rows == proj(Changed(w.files, Intended(op.renames, op.writes)))
  }

  ghost predicate Planned<D>(files: Tree, op: Operation<D>)
  {
    && Sources(op.renames) <= files.Keys && Targets(op.renames) !! files.Keys
    && Targets(op.renames) <= Written(op.writes)
    && (forall p :: p in Sources(op.renames) || p in Written(op.writes) ==> p in op.paths)
  }

  // ----- the files and the index at the commit -----

  lemma {:induction false} PutAllElsewhere<V>(m: map<Path, V>, writes: seq<(Path, V)>, p: Path)
    requires forall i :: 0 <= i < |writes| ==> writes[i].0 != p
    ensures Get(PutAll(m, writes), p) == Get(m, p)
    decreases |writes|
  {
    if writes != [] { PutAllElsewhere(m[writes[0].0 := writes[0].1], writes[1..], p); }
  }

  /** Writing bytes and recording the intention to write them agree. */
  lemma {:induction false} PutAllSomes(m: Tree, n: map<Path, Option<Bytes>>, writes: seq<(Path, Bytes)>, p: Path)
    requires p in n ==> n[p] == Get(m, p)
    ensures p in PutAll(n, Somes(writes)) ==> PutAll(n, Somes(writes))[p] == Get(PutAll(m, writes), p)
    ensures p in PutAll(n, Somes(writes)) <==> p in n || p in Written(writes)
    decreases |writes|
  {
    if writes != [] {
      var x := writes[0];
      assert writes == [x] + writes[1..];
      assert Somes(writes)[1..] == Somes(writes[1..]);
      PutAllSomes(m[x.0 := x.1], n[x.0 := Some(x.1)], writes[1..], p);
    }
  }

  /** Files and index after the renames, apart from the rename targets. */
  ghost predicate Renamed<D>(w: World<D>, u: World<D>, renames: seq<(Path, Path)>)
  {
    && u == w.(files := u.files, index := u.index)
    && Entries(u.index) == Entries(w.index) - Sources(renames)
    && (forall p :: p !in Targets(renames) ==>
          Get(u.files, p) == if p in Sources(renames) then None else Get(w.files, p))
  }

  lemma RenamedOnce<D>(proj: Tree -> D, w: World<D>, u: World<D>, r: (Path, Path), rest: seq<(Path, Path)>)
    requires Sources([r] + rest) !! Targets([r] + rest)
    requires Renamed(Eff(proj, Eff(proj, w, RenameFile(r.0, r.1)), Unstage(r.0)), u, rest)
    ensures Renamed(w, u, [r] + rest)
  {
    var renames := [r] + rest;
    assert Sources(renames) == {r.0} + Sources(rest) && Targets(renames) == {r.1} + Targets(rest);
    var w1 := Eff(proj, Eff(proj, w, RenameFile(r.0, r.1)), Unstage(r.0));
    forall p | p !in Targets(renames)
      ensures Get(u.files, p) == if p in Sources(renames) then None else Get(w.files, p)
    {
      assert Get(u.files, p) == if p in Sources(rest) then None else Get(w1.files, p);
    }
  }

  lemma {:induction false} RunRenames<D>(proj: Tree -> D, w: World<D>, renames: seq<(Path, Path)>)
    requires Sources(renames) !! Targets(renames)
    ensures Renamed(w, Run(proj, w, RenameSteps(renames)), renames)
    decreases |renames|
  {
    hide Eff, Renamed;
    if renames == [] {
      NoRenames(w);
    } else {
      var r, rest := renames[0], renames[1..];
      assert renames == [r] + rest;
      assert Sources(rest) <= Sources(renames) && Targets(rest) <= Targets(renames);
      RunPair(proj, w, RenameFile(r.0, r.1), Unstage(r.0));
      RunConcat(proj, w, [RenameFile(r.0, r.1), Unstage(r.0)], RenameSteps(rest));
      RunRenames(proj, Eff(proj, Eff(proj, w, RenameFile(r.0, r.1)), Unstage(r.0)), rest);
      RenamedOnce(proj, w, Run(proj, w, RenameSteps(renames)), r, rest);
    }
  }

  lemma NoRenames<D>(w: World<D>)
    ensures Renamed(w, w, [])
  {
  }

  lemma RunPair<D>(proj: Tree -> D, w: World<D>, s: Prim<D>, t: Prim<D>)
    ensures Run(proj, w, [s, t]) == Eff(proj, Eff(proj, w, s), t)
  {
    assert [s, t][1..] == [t];
    RunOne(proj, Eff(proj, w, s), t);
  }

  lemma {:induction false} RunWrites<D>(proj: Tree -> D, w: World<D>, writes: seq<(Path, Bytes)>)
    ensures var u := Run(proj, w, WriteSteps(writes));
      && u == w.(files := PutAll(w.files, writes), index := u.index)
      && Entries(u.index) == PutAll(Entries(w.index), writes)
      && (w.index.Index? ==> u.index.Index?)
    decreases |writes|
  {
    if writes != [] {
      var x, rest := writes[0], writes[1..];
      var w1 := Eff(proj, Eff(proj, w, WriteFile(x.0, x.1)), Stage(x.0));
      RunPair(proj, w, WriteFile(x.0, x.1), Stage(x.0));
      RunConcat(proj, w, [WriteFile(x.0, x.1), Stage(x.0)], WriteSteps(rest));
      RunWrites(proj, w1, rest);
    }
  }

  lemma SameMap<V>(m: map<Path, V>, n: map<Path, V>)
    requires forall p :: Get(m, p) == Get(n, p)
    ensures m == n
  {
    forall p
      ensures p in m <==> p in n
      ensures p in m ==> m[p] == n[p]
    {
      assert Get(m, p) == Get(n, p);
    }
  }

  lemma NotWritten(writes: seq<(Path, Bytes)>, p: Path)
    requires p !in Written(writes)
    ensures forall i :: 0 <= i < |writes| ==> writes[i].0 != p
  {
    forall i | 0 <= i < |writes|
      ensures writes[i].0 != p
    {
      assert writes[i] in writes;
    }
  }

  /** Removing the renamed files and then writing gives exactly the intended content. */
  lemma PutAllIsChanged(m: Tree, base: Tree, renames: seq<(Path, Path)>, writes: seq<(Path, Bytes)>)
    requires Targets(renames) <= Written(writes) && Sources(renames) !! Targets(renames)
    requires forall p :: p !in Targets(renames) ==> Get(m, p) == if p in Sources(renames) then None else Get(base, p)
    ensures PutAll(m, writes) == Changed(base, Intended(renames, writes))
  {
    var after := Intended(renames, writes);
    var gone: map<Path, Option<Bytes>> := map p | p in Sources(renames) :: None;
    forall p
      ensures Get(PutAll(m, writes), p) == Get(Changed(base, after), p)
    {
      PutAllSomes(m, gone, writes, p);
      if p !in after {
        NotWritten(writes, p);
        PutAllElsewhere(m, writes, p);
      }
    }
    SameMap(PutAll(m, writes), Changed(base, after));
  }

  /** At the commit, files and index both hold exactly the intended changes. */
  lemma WorkDone<D>(proj: Tree -> D, w: World<D>, op: Operation<D>)
    requires Planned(w.files, op)
    ensures Run(proj, w, WorkSteps(op)) ==
      w.(files := Changed(w.files, Intended(op.renames, op.writes)), index := Index(CommitTree(w, op)))
  {
    hide Changed;
    var w1 := Eff(proj, w, ResetIndex);
    var w2 := Run(proj, w1, RenameSteps(op.renames));
    var w3 := Run(proj, w2, WriteSteps(op.writes));
    RunOne(proj, w, ResetIndex);
    RunConcat(proj, w, [ResetIndex], RenameSteps(op.renames));
    RunConcat(proj, w, [ResetIndex] + RenameSteps(op.renames), WriteSteps(op.writes));
    RunRenames(proj, w1, op.renames);
    RunWrites(proj, w2, op.writes);
    PutAllIsChanged(w2.files, w.files, op.renames, op.writes);
    assert forall p :: p !in Targets(op.renames) ==>
      Get(Entries(w2.index), p) == if p in Sources(op.renames) then None else Get(HeadTree(w), p);
    PutAllIsChanged(Entries(w2.index), HeadTree(w), op.renames, op.writes);
    assert w3.index.Index? by { RenamesKeepIndex(proj, w1, op.renames); }
  }

  lemma {:induction false} RenamesKeepIndex<D>(proj: Tree -> D, w: World<D>, renames: seq<(Path, Path)>)
    requires w.index.Index?
    ensures Run(proj, w, RenameSteps(renames)).index.Index?
    decreases |renames|
  {
    if renames != [] {
      var r := renames[0];
      RunPair(proj, w, RenameFile(r.0, r.1), Unstage(r.0));
      RunConcat(proj, w, [RenameFile(r.0, r.1), Unstage(r.0)], RenameSteps(renames[1..]));
      RenamesKeepIndex(proj, Eff(proj, Eff(proj, w, RenameFile(r.0, r.1)), Unstage(r.0)), renames[1..]);
    }
  }

  /** Commit isolation: the operation's tree differs from its parent's only at journaled paths,
      where it holds the intended bytes. */
  lemma CommitIsolation<D>(w: World<D>, op: Operation<D>, p: Path)
    requires Planned(w.files, op)
    ensures p !in op.paths ==> Get(CommitTree(w, op), p) == Get(HeadTree(w), p)
    ensures p in Intended(op.renames, op.writes) ==> Get(CommitTree(w, op), p) == Intended(op.renames, op.writes)[p]
    ensures p in Intended(op.renames, op.writes) ==> p in op.paths
  {
    hide Changed;
    var gone: map<Path, Option<Bytes>> := map q | q in Sources(op.renames) :: None;
    PutAllSomes(map q | q in Written(op.writes) && q !in Sources(op.renames) :: "", gone, op.writes, p);
  }
}

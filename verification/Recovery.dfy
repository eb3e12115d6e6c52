/** Settling a journal: `recover_journal`, `roll_back` and the project rebuild around them
    (src/card/CardMutation.cpp, src/project/Rebuilder.cpp). */
module Recovery {
  import opened Common
  import opened Journal

  // ----- recover_journal -----

  /** `is_operation_commit`: the saved HEAD as only parent, the intended bytes at every
      changed path. */
  predicate IsOperation(commits: map<Oid, Commit>, c: Oid, saved: Saved)
  {
    && c in commits && commits[c].parents == ParentsOf(saved.head)
    && forall p :: p in saved.after ==> Get(commits[c].tree, p) == saved.after[p]
  }

  const SEARCH_LIMIT: nat := 10000

  /** The search loop of `landed_commit` over the walk from the branch tip. */
  function LandedIn(commits: map<Oid, Commit>, saved: Saved, walk: seq<Oid>, remaining: nat): (r: Option<Oid>)
    ensures r.Some? ==> IsOperation(commits, r.value, saved) && r.value in walk
  {
    if walk == [] || remaining == 0 then None
    else if IsOperation(commits, walk[0], saved) then Some(walk[0])
    else LandedIn(commits, saved, walk[1..], remaining - 1)
  }

  /** `walk` is what the branch tip yields with the saved HEAD hidden. */
  datatype Diagnosis = Nothing | Landed(commit: Oid) | Foreign

  function Diagnose<D>(w: World<D>, saved: Saved, walk: seq<Oid>): (d: Diagnosis)
    ensures d.Landed? ==> IsOperation(w.commits, d.commit, saved)
  {
    if Tip(w, saved.branch) == saved.head then Nothing
    else if Tip(w, saved.branch).None? then Foreign
    else
      var c := LandedIn(w.commits, saved, walk, SEARCH_LIMIT);
      if c.Some? then Landed(c.value) else Foreign
  }

  ghost predicate WellSaved(saved: Saved)
  {
    && (forall p :: p in saved.order <==> p in saved.before)
    && saved.after.Keys <= saved.before.Keys
    && (forall i, j :: 0 <= i < j < |saved.order| ==> saved.order[i] != saved.order[j])
    && !saved.index.TornIndex?
  }

  function RestoreStep<D>(p: Path, bytes: Option<Bytes>): Prim<D>
  {
    if bytes.None? then RemoveFile(p) else WriteFile(p, bytes.value)
  }

  function RestoreSteps<D>(paths: seq<Path>, before: map<Path, Option<Bytes>>): (r: seq<Prim<D>>)
    requires forall p :: p in paths ==> p in before
    ensures |r| == |paths| && forall i :: 0 <= i < |r| ==> r[i] == RestoreStep(paths[i], before[paths[i]])
  {
    seq(|paths|, i requires 0 <= i < |paths| => RestoreStep(paths[i], before[paths[i]]))
  }

  /** A changed path that still holds the operation's uncommitted bytes. */
  predicate HoldsAfter(files: Tree, saved: Saved, p: Path)
  {
    p in saved.after && Get(files, p) == saved.after[p]
  }

  function RevertPaths(files: Tree, saved: Saved, order: seq<Path>): (r: seq<Path>)
    ensures forall p :: p in r <==> p in order && HoldsAfter(files, saved, p)
  {
    if order == [] then []
    else
      var rest := RevertPaths(files, saved, order[1..]);
      assert forall p :: p in order <==> p == order[0] || p in order[1..];
      if HoldsAfter(files, saved, order[0]) then [order[0]] + rest else rest
  }

  /** The two cases in which recovery restores the index file. */
  predicate TouchesIndex<D>(w: World<D>, saved: Saved, walk: seq<Oid>)
  {
    var d := Diagnose(w, saved, walk);
    d.Nothing? || (d.Landed? && Tip(w, w.head) == Some(d.commit))
  }

  /** Before it restores the index file recovery opens it, and a torn file does not open:
      the exception leaves the journal where it is. */
  predicate Stuck<D>(w: World<D>, saved: Saved, walk: seq<Oid>)
  {
    w.index.TornIndex? && TouchesIndex(w, saved, walk)
  }

  /** What recovery does to files and index. It has no step that moves a ref. */
  function FileSteps<D>(w: World<D>, saved: Saved, walk: seq<Oid>): seq<Prim<D>>
    requires WellSaved(saved)
  {
    match Diagnose(w, saved, walk)
    case Nothing =>
      RestoreSteps(saved.order, saved.before) + if w.index.TornIndex? then [] else [RestoreIndex(saved.index)]
    case Landed(c) =>
      if Tip(w, w.head) == Some(c) && !w.index.TornIndex?
      then [RestoreIndex(saved.index), OverlayIndex(w.commits[c].tree, saved.order)]
      else []
    case Foreign => RestoreSteps(RevertPaths(w.files, saved, saved.order), saved.before)
  }

  /** `Rebuilder::rebuild_project` on a pending journal. */
  function SettleSteps<D>(w: World<D>, saved: Saved, walk: seq<Oid>): seq<Prim<D>>
    requires WellSaved(saved)
  {
    if Stuck(w, saved, walk) then FileSteps(w, saved, walk)
    else FileSteps(w, saved, walk) + [RebuildSql] + [RemoveJournal]
  }

  /** `CardStore::require_project`: settle a pending journal, if there is one. */
  function Settle<D>(proj: Tree -> D, w: World<D>, walk: seq<Oid>): World<D>
    requires w.journal.Some? ==> WellSaved(w.journal.value)
  {
    if w.journal.None? then w else Run(proj, w, SettleSteps(w, w.journal.value, walk))
  }

  // ----- in closed form -----

  function Only(before: map<Path, Option<Bytes>>, paths: seq<Path>): (r: map<Path, Option<Bytes>>)
    ensures forall p :: p in r <==> p in paths && p in before
    ensures forall p :: p in r ==> r[p] == before[p]
  {
    map p | p in before && p in paths :: before[p]
  }

  lemma {:induction false} RunRestores<D>(proj: Tree -> D, w: World<D>, paths: seq<Path>, before: map<Path,
                                          Option<Bytes>>)
    requires forall p :: p in paths ==> p in before
    ensures Run(proj, w, RestoreSteps(paths, before)) == w.(files := Changed(w.files, Only(before, paths)))
    decreases |paths|
  {
    hide *;
    if paths == [] {
      RunNone(proj, w);
      NoneRestored(w.files, before);
      assert RestoreSteps<D>(paths, before) == [];
    } else {
      var p, rest := paths[0], paths[1..];
      var s: Prim<D> := RestoreStep(p, before[p]);
      assert RestoreSteps(paths, before) == [s] + RestoreSteps(rest, before);
      assert paths == [p] + rest;
      var w1 := Eff(proj, w, s);
      RestoreEff(proj, w, p, before[p]);
      RunOne(proj, w, s);
      RunConcat(proj, w, [s], RestoreSteps(rest, before));
      RunRestores(proj, w1, rest, before);
      RestoreOnce(w.files, p, rest, before, w1.files);
    }
  }

  lemma RunNone<D>(proj: Tree -> D, w: World<D>)
    ensures Run(proj, w, []) == w
  {
  }

  lemma NoneRestored(files: Tree, before: map<Path, Option<Bytes>>)
    ensures Changed(files, Only(before, [])) == files
  {
    SameMap(files, Changed(files, Only(before, [])));
  }

  lemma RestoreEff<D>(proj: Tree -> D, w: World<D>, p: Path, bytes: Option<Bytes>)
    ensures Eff(proj, w, RestoreStep(p, bytes)) ==
      w.(files := if bytes.None? then w.files - {p} else w.files[p := bytes.value])
  {
  }

  lemma RestoreOnce(files: Tree, p: Path, rest: seq<Path>, before: map<Path, Option<Bytes>>, files1: Tree)
    requires p in before && forall q :: q in rest ==> q in before
    requires files1 == if before[p].None? then files - {p} else files[p := before[p].value]
    ensures Changed(files1, Only(before, rest)) == Changed(files, Only(before, [p] + rest))
  {
    hide Changed, Only;
    forall q
      ensures Get(Changed(files1, Only(before, rest)), q) == Get(Changed(files, Only(before, [p] + rest)), q)
    {
      assert q in [p] + rest <==> q == p || q in rest;
    }
    SameMap(Changed(files1, Only(before, rest)), Changed(files, Only(before, [p] + rest)));
  }

  function SettledFiles<D>(w: World<D>, saved: Saved, walk: seq<Oid>): Tree
  {
    match Diagnose(w, saved, walk)
    case Nothing => Changed(w.files, Only(saved.before, saved.order))
    case Landed(c) => w.files
    case Foreign => Changed(w.files, Only(saved.before, RevertPaths(w.files, saved, saved.order)))
  }

  function SettledIndex<D>(w: World<D>, saved: Saved, walk: seq<Oid>): IndexFile
  {
    if !TouchesIndex(w, saved, walk) || w.index.TornIndex? then w.index
    else
      match Diagnose(w, saved, walk)
      case Nothing => saved.index
      case Landed(c) => Index(Overlay(Entries(saved.index), w.commits[c].tree, saved.order))
      case Foreign => w.index
  }

  function Settled<D>(proj: Tree -> D, w: World<D>, saved: Saved, walk: seq<Oid>): World<D>
  {
    var files := SettledFiles(w, saved, walk);
    if Stuck(w, saved, walk) then w.(files := files)
    else w.(files := files, index := SettledIndex(w, saved, walk), journal := None, db := proj(files))
  }

  lemma FilesSettle<D>(proj: Tree -> D, w: World<D>, saved: Saved, walk: seq<Oid>)
    requires WellSaved(saved)
    ensures Run(proj, w, FileSteps(w, saved, walk)) ==
      w.(files := SettledFiles(w, saved, walk), index := SettledIndex(w, saved, walk))
  {
    hide *;
    match Diagnose(w, saved, walk)
    case Nothing => NothingSettles(proj, w, saved, walk);
    case Landed(c) => LandedFilesSettle(proj, w, saved, walk, c);
    case Foreign => ForeignSettles(proj, w, saved, walk);
  }

  lemma NothingSettles<D>(proj: Tree -> D, w: World<D>, saved: Saved, walk: seq<Oid>)
    requires WellSaved(saved) && Diagnose(w, saved, walk).Nothing?
    ensures Run(proj, w, FileSteps(w, saved, walk)) ==
      w.(files := SettledFiles(w, saved, walk), index := SettledIndex(w, saved, walk))
  {
    hide Changed, Only, Diagnose, RestoreSteps, Run;
    var restores: seq<Prim<D>> := RestoreSteps(saved.order, saved.before);
    RunRestores(proj, w, saved.order, saved.before);
    RunConcat(proj, w, restores, [RestoreIndex(saved.index)]);
    RunOne(proj, Run(proj, w, restores), RestoreIndex(saved.index));
    assert restores + [] == restores;
  }

  lemma LandedFilesSettle<D>(proj: Tree -> D, w: World<D>, saved: Saved, walk: seq<Oid>, c: Oid)
    requires WellSaved(saved) && Diagnose(w, saved, walk) == Landed(c)
    ensures Run(proj, w, FileSteps(w, saved, walk)) ==
      w.(files := SettledFiles(w, saved, walk), index := SettledIndex(w, saved, walk))
  {
    assert c in w.commits by { assert Diagnose(w, saved, walk).Landed? ==> IsOperation(w.commits, c, saved); }
    hide Overlay, Diagnose, Run;
    RunNone(proj, w);
    RunPair(proj, w, RestoreIndex(saved.index), OverlayIndex(w.commits[c].tree, saved.order));
  }

  lemma ForeignSettles<D>(proj: Tree -> D, w: World<D>, saved: Saved, walk: seq<Oid>)
    requires WellSaved(saved) && Diagnose(w, saved, walk).Foreign?
    ensures Run(proj, w, FileSteps(w, saved, walk)) ==
      w.(files := SettledFiles(w, saved, walk), index := SettledIndex(w, saved, walk))
  {
    hide Changed, Only, Diagnose, Run, RevertPaths;
    RunRestores(proj, w, RevertPaths(w.files, saved, saved.order), saved.before);
  }

  /** One uninterrupted recovery and rebuild, in closed form. */
  lemma SettleIs<D>(proj: Tree -> D, w: World<D>, walk: seq<Oid>, saved: Saved)
    requires w.journal == Some(saved) && WellSaved(saved)
    ensures Settle(proj, w, walk) == Settled(proj, w, saved, walk)
  {
    hide SettledFiles, SettledIndex, FileSteps, Stuck, Run;
    var fs := FileSteps(w, saved, walk);
    FilesSettle(proj, w, saved, walk);
    StuckIndex(w, saved, walk);
    if !Stuck(w, saved, walk) {
      var u := Run(proj, w, fs);
      RunConcat(proj, w, fs, [RebuildSql]);
      RunConcat(proj, w, fs + [RebuildSql], [RemoveJournal]);
      RunOne(proj, u, RebuildSql);
      RunOne(proj, Eff(proj, u, RebuildSql), RemoveJournal);
    }
  }

  lemma StuckIndex<D>(w: World<D>, saved: Saved, walk: seq<Oid>)
    ensures Stuck(w, saved, walk) ==> SettledIndex(w, saved, walk) == w.index
  {
    hide Diagnose;
  }

  /** Recovery is ref-safe: no branch moves and no commit is lost, whatever the state of the
      repository, so commits made on top of a landed operation are kept. It finishes, with the
      database rebuilt, unless it is stuck. */
  lemma SettleKeepsRefs<D>(proj: Tree -> D, w: World<D>, walk: seq<Oid>)
    requires w.journal.Some? ==> WellSaved(w.journal.value)
    ensures var u := Settle(proj, w, walk);
      && u.refs == w.refs && u.commits == w.commits && u.head == w.head
      && (u.journal.None? <==> w.journal.None? || !Stuck(w, w.journal.value, walk))
      && (w.journal.Some? && u.journal.None? ==> u.db == proj(u.files))
  {
    hide Stuck;
    if w.journal.Some? { SettleIs(proj, w, walk, w.journal.value); }
  }

  /** What recovery leaves alone once the branch has moved on: unless HEAD is a commit that looks
      like the operation's, the index stays as it is, and the journal goes, torn index or not. */
  lemma IndexLeftAlone<D>(proj: Tree -> D, w: World<D>, walk: seq<Oid>, saved: Saved)
    requires w.journal == Some(saved) && WellSaved(saved) && Tip(w, saved.branch) != saved.head
    requires Tip(w, w.head).Some? ==> !IsOperation(w.commits, Tip(w, w.head).value, saved)
    ensures var v := Settle(proj, w, walk); v.index == w.index && v.journal.None? && v.db == proj(v.files)
  {
    hide IsOperation, LandedIn, SettledFiles;
    SettleIs(proj, w, walk, saved);
  }

  /** With the branch moved on and no commit found, exactly the changed files that still hold the
      operation's bytes get their old bytes; every other file, changed since or not, stays. */
  lemma ForeignFiles<D>(proj: Tree -> D, w: World<D>, walk: seq<Oid>, saved: Saved, p: Path)
    requires w.journal == Some(saved) && WellSaved(saved) && Tip(w, saved.branch) != saved.head
    requires forall i :: 0 <= i < |walk| && i < SEARCH_LIMIT ==> !IsOperation(w.commits, walk[i], saved)
    ensures Get(Settle(proj, w, walk).files, p) ==
      if p in saved.after && Get(w.files, p) == saved.after[p] then saved.before[p] else Get(w.files, p)
  {
    hide IsOperation;
    LandedExact(w.commits, saved, walk, SEARCH_LIMIT);
    SettleIs(proj, w, walk, saved);
  }

  // ----- the search bound -----

  lemma {:induction false} LandedExact(commits: map<Oid, Commit>, saved: Saved, walk: seq<Oid>, remaining: nat)
    ensures LandedIn(commits, saved, walk, remaining).Some? <==>
      exists i :: 0 <= i < |walk| && i < remaining && IsOperation(commits, walk[i], saved)
    decreases |walk|
  {
    if walk != [] && remaining > 0 && !IsOperation(commits, walk[0], saved) {
      LandedExact(commits, saved, walk[1..], remaining - 1);
      if i :| 0 <= i < |walk| && i < remaining && IsOperation(commits, walk[i], saved) {
        assert walk[1..][i - 1] == walk[i];
      }
    }
  }

  /** The commit found is the first one of the walk that looks like the operation's. */
  lemma {:induction false} LandedIsFirst(commits: map<Oid, Commit>, saved: Saved, walk: seq<Oid>, remaining: nat,
                                         k: nat)
    requires k < |walk| && k < remaining && IsOperation(commits, walk[k], saved)
    requires forall i :: 0 <= i < k ==> !IsOperation(commits, walk[i], saved)
    ensures LandedIn(commits, saved, walk, remaining) == Some(walk[k])
    decreases k
  {
    hide IsOperation;
    if k > 0 { LandedIsFirst(commits, saved, walk[1..], remaining - 1, k - 1); }
  }

  /** If that is HEAD's commit, the index becomes the saved one with the commit's entries at the
      journaled paths, and every file stays. */
  lemma HeadLanded<D>(proj: Tree -> D, w: World<D>, walk: seq<Oid>, saved: Saved, k: nat)
    requires w.journal == Some(saved) && WellSaved(saved) && !w.index.TornIndex?
    requires Tip(w, saved.branch).Some? && Tip(w, saved.branch) != saved.head
    requires k < |walk| && k < SEARCH_LIMIT && IsOperation(w.commits, walk[k], saved) && Tip(w, w.head) == Some(walk[k])
    requires forall i :: 0 <= i < k ==> !IsOperation(w.commits, walk[i], saved)
    ensures walk[k] in w.commits
    ensures Settle(proj, w, walk) ==
      w.(index := Index(Overlay(Entries(saved.index), w.commits[walk[k]].tree, saved.order)), journal := None,
         db := proj(w.files))
  {
    LandedIsFirst(w.commits, saved, walk, SEARCH_LIMIT, k);
    assert walk[k] in w.commits;
    hide IsOperation, LandedIn, Overlay;
    SettleIs(proj, w, walk, saved);
  }

  /** With the branch moved on, the operation is kept exactly when one of the first 10,000
      commits of the walk is its commit. */
  lemma KeptWithinBound<D>(w: World<D>, saved: Saved, walk: seq<Oid>)
    requires Tip(w, saved.branch).Some? && Tip(w, saved.branch) != saved.head
    ensures Diagnose(w, saved, walk).Landed? <==>
      exists i :: 0 <= i < |walk| && i < SEARCH_LIMIT && IsOperation(w.commits, walk[i], saved)
  {
    LandedExact(w.commits, saved, walk, SEARCH_LIMIT);
  }

  /** A landed operation found in time keeps its files; one beyond the bound has every file
      that still holds its bytes put back, although it was committed. */
  lemma BoundDecides<D>(proj: Tree -> D, w: World<D>, walk: seq<Oid>, saved: Saved, p: Path)
    requires w.journal == Some(saved) && WellSaved(saved) && HoldsAfter(w.files, saved, p)
    requires Tip(w, saved.branch).Some? && Tip(w, saved.branch) != saved.head
    ensures Get(Settle(proj, w, walk).files, p) ==
      if exists i :: 0 <= i < |walk| && i < SEARCH_LIMIT && IsOperation(w.commits, walk[i], saved)
      then saved.after[p] else saved.before[p]
  {
    hide IsOperation;
    KeptWithinBound(w, saved, walk);
    SettleIs(proj, w, walk, saved);
  }

  // ----- recovery interrupted and repeated -----

  /** Between `w` and `u` recovery has only touched the index, the database, and files of
      `paths`, each holding its old bytes or as much of `before` as had been written. */
  ghost predicate Within<D>(w: World<D>, u: World<D>, indexed: bool, paths: seq<Path>, before: map<Path, Option<Bytes>>)
  {
    && u == w.(files := u.files, index := u.index, db := u.db)
    && (!indexed ==> u.index == w.index)
    && forall p :: Get(u.files, p) == Get(w.files,
                                          p) || (p in paths && p in before && PartOf(Get(u.files, p), before[p]))
  }

  ghost predicate PartOf(now: Option<Bytes>, bytes: Option<Bytes>)
  {
    now == bytes || (bytes.Some? && exists n: nat :: now == Some(Prefix(bytes.value, n)))
  }

  /** Steps of recovery before the journal goes. */
  ghost predicate Mild<D>(s: Prim<D>, indexed: bool, paths: seq<Path>, before: map<Path, Option<Bytes>>)
  {
    (indexed && (s.RestoreIndex? || s.OverlayIndex?)) || s.RebuildSql? ||
    (exists p :: p in paths && p in before && s == RestoreStep(p, before[p]))
  }

  lemma MildStep<D>(proj: Tree -> D, w: World<D>, u: World<D>, s: Prim<D>, indexed: bool, paths: seq<Path>,
                    before: map<Path, Option<Bytes>>, n: nat)
    requires Within(w, u, indexed, paths, before) && Mild(s, indexed, paths, before)
    ensures Within(w, Eff(proj, u, s), indexed, paths, before) && Within(w, Tear(u, s, n), indexed, paths, before)
  {
    if p :| p in paths && p in before && s == RestoreStep(p, before[p]) {
      WithinFile(w, u, Eff(proj, u, s), indexed, paths, before, p);
      assert before[p].Some? ==> PartOf(Some(Prefix(before[p].value, n)), before[p]);
      WithinFile(w, u, Tear(u, s, n), indexed, paths, before, p);
    }
  }

  lemma WithinFile<D>(w: World<D>, u: World<D>, v: World<D>, indexed: bool, paths: seq<Path>, before: map<Path,
                      Option<Bytes>>, p: Path)
    requires Within(w, u, indexed, paths, before) && v == u.(files := v.files)
    requires p in paths && p in before && (PartOf(Get(v.files, p), before[p]) || Get(v.files, p) == Get(u.files, p))
    requires forall q :: q != p ==> (q in v.files <==> q in u.files) && (q in v.files ==> v.files[q] == u.files[q])
    ensures Within(w, v, indexed, paths, before)
  {
    hide PartOf;
    forall q
      ensures Get(v.files, q) == Get(w.files, q) || (q in paths && q in before && PartOf(Get(v.files, q), before[q]))
    {
      assert q != p ==> Get(v.files, q) == Get(u.files, q);
    }
  }

  lemma {:induction false} MildRun<D>(proj: Tree -> D, w: World<D>, u: World<D>, steps: seq<Prim<D>>,
                                      indexed: bool, paths: seq<Path>, before: map<Path, Option<Bytes>>)
    requires Within(w, u, indexed, paths, before) && forall s :: s in steps ==> Mild(s, indexed, paths, before)
    ensures Within(w, Run(proj, u, steps), indexed, paths, before)
    decreases |steps|
  {
    hide Within, Mild, Eff, Tear;
    if steps != [] {
      assert steps[0] in steps;
      MildStep(proj, w, u, steps[0], indexed, paths, before, 0);
      MildRun(proj, w, Eff(proj, u, steps[0]), steps[1..], indexed, paths, before);
    }
  }

  lemma MildStop<D>(proj: Tree -> D, w: World<D>, steps: seq<Prim<D>>, at: Stop, indexed: bool, paths: seq<Path>,
                    before: map<Path, Option<Bytes>>)
    requires StopsIn(at, steps) && forall s :: s in steps ==> Mild(s, indexed, paths, before)
    ensures Within(w, StoppedAt(proj, w, steps, at), indexed, paths, before)
  {
    assert Within(w, w, indexed, paths, before);
    hide Within, Mild, Eff, Tear, Run;
    assert forall s :: s in steps[..at.done] ==> s in steps;
    MildRun(proj, w, w, steps[..at.done], indexed, paths, before);
    if at.torn.Some? {
      assert steps[at.done] in steps;
      MildStep(proj, w, Run(proj, w, steps[..at.done]), steps[at.done], indexed, paths, before, at.torn.value);
    }
  }

  /** The files recovery may rewrite. */
  function TouchedPaths<D>(w: World<D>, saved: Saved, walk: seq<Oid>): seq<Path>
  {
    match Diagnose(w, saved, walk)
    case Nothing => saved.order
    case Landed(_) => []
    case Foreign => RevertPaths(w.files, saved, saved.order)
  }

  lemma FileStepsMild<D>(w: World<D>, saved: Saved, walk: seq<Oid>, s: Prim<D>)
    requires WellSaved(saved) && s in FileSteps(w, saved, walk) + [RebuildSql]
    ensures Mild(s, TouchesIndex(w, saved, walk), TouchedPaths(w, saved, walk), saved.before)
  {
    hide IsOperation, LandedIn, RevertPaths, Diagnose;
    var paths := TouchedPaths(w, saved, walk);
    var restores: seq<Prim<D>> := if Diagnose(w, saved, walk).Landed? then [] else RestoreSteps(paths, saved.before);
    if s in restores {
      var i :| 0 <= i < |restores| && restores[i] == s;
      assert paths[i] in paths;
    }
  }

  /** The one place where an interrupted recovery cannot be repeated: with foreign commits on
      the branch, a file is recognised by the operation's bytes, which a half-written restore
      has already destroyed. */
  ghost predicate Fragile<D>(w: World<D>, saved: Saved, walk: seq<Oid>)
  {
    Diagnose(w, saved, walk).Foreign? && exists p :: FragilePath(w.files, saved, p)
  }

  ghost predicate FragilePath(files: Tree, saved: Saved, p: Path)
  {
    && p in saved.order && p in saved.before && HoldsAfter(files, saved, p) && saved.before[p].Some?
    && exists n: nat :: n < |saved.before[p].value| && Some(Prefix(saved.before[p].value, n)) != saved.after[p]
  }

  /** A caller can see fragility in the bytes: two bytes to restore are enough, one is enough
      unless the operation had emptied the file. */
  lemma FragileMeans(files: Tree, saved: Saved, p: Path)
    requires p in saved.order && p in saved.before && HoldsAfter(files, saved, p)
    ensures FragilePath(files, saved, p) <==>
      && saved.before[p].Some?
      && (|saved.before[p].value| >= 2 || (|saved.before[p].value| == 1 && saved.after[p] != Some("")))
  {
    if saved.before[p].Some? {
      var b := saved.before[p].value;
      if |b| >= 1 { assert Prefix(b, 0) == ""; }
      if |b| >= 2 {
        assert |Prefix(b, 1)| == 1;
        assert Some(Prefix(b, 0)) != saved.after[p] || Some(Prefix(b, 1)) != saved.after[p];
      }
    }
  }

  lemma WithinDiagnose<D>(w: World<D>, u: World<D>, saved: Saved, walk: seq<Oid>, indexed: bool, paths: seq<Path>)
    requires Within(w, u, indexed, paths, saved.before)
    ensures Diagnose(u, saved, walk) == Diagnose(w, saved, walk) && Tip(u, u.head) == Tip(w, w.head)
    ensures u == w.(files := u.files, index := u.index, db := u.db) && (!indexed ==> u.index == w.index)
    ensures forall p ::
        Get(u.files, p) == Get(w.files,
                               p) || (p in paths && p in saved.before && PartOf(Get(u.files, p), saved.before[p]))
  {
  }

  /** One file: half restored or not, a second run leaves it as one run would have. */
  lemma FileSettledAgain<D>(w: World<D>, u: World<D>, saved: Saved, walk: seq<Oid>, p: Path)
    requires WellSaved(saved) && !Fragile(w, saved, walk) && Diagnose(u, saved, walk) == Diagnose(w, saved, walk)
    requires Get(u.files, p) == Get(w.files, p) ||
      (p in TouchedPaths(w, saved, walk) && p in saved.before && PartOf(Get(u.files, p), saved.before[p]))
    ensures Get(SettledFiles(u, saved, walk), p) == Get(SettledFiles(w, saved, walk), p)
  {
    hide Diagnose, RevertPaths, Changed, Only;
    if Diagnose(w, saved, walk).Foreign? {
      assert HoldsAfter(u.files, saved, p) <==> p in saved.after && Get(u.files, p) == saved.after[p];
      assert !FragilePath(w.files, saved, p);
      if p in RevertPaths(w.files, saved, saved.order) && saved.before[p].Some? {
        var b := saved.before[p].value;
        assert forall n: nat :: n < |b| ==> Some(Prefix(b, n)) == saved.after[p];
      }
    }
  }

  /** From any half-recovered state whose index opens, recovery ends where it would have ended. */
  lemma SettledAgain<D>(proj: Tree -> D, w: World<D>, u: World<D>, saved: Saved, walk: seq<Oid>)
    requires WellSaved(saved) && !Fragile(w, saved, walk) && !Stuck(w, saved, walk) && !Stuck(u, saved, walk)
    requires Within(w, u, TouchesIndex(w, saved, walk), TouchedPaths(w, saved, walk), saved.before)
    ensures Settled(proj, u, saved, walk) == Settled(proj, w, saved, walk)
  {
    hide Within, Fragile, Diagnose, TouchedPaths, SettledFiles, PartOf, WellSaved;
    WithinDiagnose(w, u, saved, walk, TouchesIndex(w, saved, walk), TouchedPaths(w, saved, walk));
    forall p
      ensures Get(SettledFiles(u, saved, walk), p) == Get(SettledFiles(w, saved, walk), p)
    {
      FileSettledAgain(w, u, saved, walk, p);
    }
    SameMap(SettledFiles(u, saved, walk), SettledFiles(w, saved, walk));
  }

  /** A stop before the journal is removed. */
  lemma StopBeforeEnd<D>(proj: Tree -> D, w: World<D>, steps: seq<Prim<D>>, at: Stop) returns (early: Stop)
    requires StopsIn(at, steps + [RemoveJournal]) && at.done <= |steps|
    ensures StopsIn(early, steps)
    ensures StoppedAt(proj, w, steps + [RemoveJournal], at) == StoppedAt(proj, w, steps, early)
    ensures TearsIndex(early, steps) <==> TearsIndex(at, steps + [RemoveJournal])
  {
    early := if at.done < |steps| then at else Stop(at.done, None);
    assert (steps + [RemoveJournal])[..at.done] == steps[..at.done];
  }

  /** Recovery writes only whole index files back. */
  lemma RecoveryWhole<D>(w: World<D>, saved: Saved, walk: seq<Oid>)
    requires WellSaved(saved)
    ensures WholeIndexes(FileSteps(w, saved, walk) + [RebuildSql])
  {
    hide IsOperation, LandedIn, RevertPaths, Diagnose;
    var steps := FileSteps(w, saved, walk) + [RebuildSql];
    var restores: seq<Prim<D>> :=
      if Diagnose(w, saved, walk).Landed? then [] else RestoreSteps(TouchedPaths(w, saved, walk), saved.before);
    forall s | s in steps && s.RestoreIndex?
      ensures s.file == saved.index
    {
      assert s !in restores;
    }
  }

  /** A tear can only happen in the two cases that restore the index. */
  lemma TearTouches<D>(w: World<D>, saved: Saved, walk: seq<Oid>, at: Stop)
    requires WellSaved(saved) && TearsIndex(at, FileSteps(w, saved, walk) + [RebuildSql])
    ensures TouchesIndex(w, saved, walk) && !saved.index.NoIndex?
  {
    hide IsOperation, LandedIn, RevertPaths, Diagnose;
    var steps := FileSteps(w, saved, walk) + [RebuildSql];
    var restores: seq<Prim<D>> :=
      if Diagnose(w, saved, walk).Landed? then [] else RestoreSteps(TouchedPaths(w, saved, walk), saved.before);
    assert steps[at.done] in steps && steps[at.done] !in restores;
  }

  /** Recovery stopped anywhere, and what a further run makes of it: the end of one whole run,
      or, if it was stopped inside the write of the index file, nothing any more. */
  lemma SettleAfterStop<D>(proj: Tree -> D, w: World<D>, walk: seq<Oid>, saved: Saved, at: Stop)
    requires w.journal == Some(saved) && WellSaved(saved) && !Stuck(w, saved, walk) && !Fragile(w, saved, walk)
    requires StopsIn(at, SettleSteps(w, saved, walk))
    ensures var u := StoppedAt(proj, w, SettleSteps(w, saved, walk), at);
      if TearsIndex(at, SettleSteps(w, saved, walk)) then u.journal == Some(saved) && Stuck(u, saved, walk)
      else StillGood(u, saved, walk) && Settle(proj, u, walk) == Settle(proj, w, walk)
  {
    hide *;
    var steps := FileSteps(w, saved, walk) + [RebuildSql];
    var u := StoppedAt(proj, w, SettleSteps(w, saved, walk), at);
    SettleStepsAre(w, saved, walk);
    SettleIs(proj, w, walk, saved);
    StopsLength(at, steps + [RemoveJournal]);
    if at.done <= |steps| {
      var early := StopBeforeEnd(proj, w, steps, at);
      SettleStop(proj, w, walk, saved, early);
      if TearsIndex(early, steps) {
        TearTouches(w, saved, walk, early);
        StuckIf(w, u, saved, walk);
      } else {
        StuckNot(w, u, saved, walk);
        SettledAgain(proj, w, u, saved, walk);
        SettleIs(proj, u, walk, saved);
        StillSound(w, u, saved, walk);
      }
      StillGoodIs(u, saved, walk);
    } else {
      StoppedAtEnd(proj, w, steps + [RemoveJournal], at);
      SettledNoJournal(proj, w, saved, walk);
      SettleRuns(proj, w, walk, saved);
      SettleSettled(proj, w, u, walk, saved);
      StillGoodIs(u, saved, walk);
    }
  }

  /** Not beyond repair: the journal is gone, or recovery can still go all the way. */
  ghost predicate StillGood<D>(u: World<D>, saved: Saved, walk: seq<Oid>)
  {
    u.journal.Some? ==> u.journal == Some(saved) && !Stuck(u, saved, walk) && !Fragile(u, saved, walk)
  }

  lemma StillGoodIs<D>(u: World<D>, saved: Saved, walk: seq<Oid>)
    ensures StillGood(u, saved, walk) <==>
      (u.journal.Some? ==> u.journal == Some(saved) && !Stuck(u, saved, walk) && !Fragile(u, saved, walk))
  {
    hide Stuck, Fragile;
  }

  lemma SettleStepsAre<D>(w: World<D>, saved: Saved, walk: seq<Oid>)
    requires WellSaved(saved)
    ensures SettleSteps(w, saved, walk) == if Stuck(w, saved, walk) then FileSteps(w, saved, walk)
                                           else FileSteps(w, saved, walk) + [RebuildSql] + [RemoveJournal]
  {
    hide Stuck, FileSteps;
  }

  lemma StopsLength<D>(at: Stop, steps: seq<Prim<D>>)
    requires StopsIn(at, steps)
    ensures at.done <= |steps| && (at.done == |steps| ==> !TearsIndex(at, steps))
  {
  }

  lemma StoppedAtEnd<D>(proj: Tree -> D, w: World<D>, steps: seq<Prim<D>>, at: Stop)
    requires StopsIn(at, steps) && at.done >= |steps|
    ensures StoppedAt(proj, w, steps, at) == Run(proj, w, steps) && !TearsIndex(at, steps)
  {
    assert steps[..at.done] == steps;
  }

  /** A stop among the steps before the journal goes. */
  lemma SettleStop<D>(proj: Tree -> D, w: World<D>, walk: seq<Oid>, saved: Saved, at: Stop)
    requires w.journal == Some(saved) && WellSaved(saved) && !Stuck(w, saved, walk)
    requires StopsIn(at, FileSteps(w, saved, walk) + [RebuildSql])
    ensures var u := StoppedAt(proj, w, FileSteps(w, saved, walk) + [RebuildSql], at);
      && Within(w, u, TouchesIndex(w, saved, walk), TouchedPaths(w, saved, walk),
                saved.before) && u.journal == w.journal
      && Diagnose(u, saved, walk) == Diagnose(w, saved, walk) && Tip(u, u.head) == Tip(w, w.head)
      && (TouchesIndex(w, saved, walk) ==>
           (u.index.TornIndex? <==> TearsIndex(at, FileSteps(w, saved, walk) + [RebuildSql])))
  {
    hide *;
    var steps := FileSteps(w, saved, walk) + [RebuildSql];
    forall s | s in steps
      ensures Mild(s, TouchesIndex(w, saved, walk), TouchedPaths(w, saved, walk), saved.before)
    {
      FileStepsMild(w, saved, walk, s);
    }
    MildStop(proj, w, steps, at, TouchesIndex(w, saved, walk), TouchedPaths(w, saved, walk), saved.before);
    WithinDiagnose(w, StoppedAt(proj, w, steps, at), saved, walk, TouchesIndex(w, saved, walk),
                   TouchedPaths(w, saved, walk));
    if TouchesIndex(w, saved, walk) {
      RecoveryWhole(w, saved, walk);
      NotStuckIndex(w, saved, walk);
      TornExactly(proj, w, steps, at);
    }
  }

  lemma NotStuckIndex<D>(w: World<D>, saved: Saved, walk: seq<Oid>)
    requires !Stuck(w, saved, walk) && TouchesIndex(w, saved, walk)
    ensures !w.index.TornIndex?
  {
    hide TouchesIndex;
  }

  lemma StuckIf<D>(w: World<D>, u: World<D>, saved: Saved, walk: seq<Oid>)
    requires TouchesIndex(w, saved, walk) && u.index.TornIndex?
    requires Diagnose(u, saved, walk) == Diagnose(w, saved, walk) && Tip(u, u.head) == Tip(w, w.head)
    ensures Stuck(u, saved, walk)
  {
    hide Diagnose;
  }

  lemma StuckNot<D>(w: World<D>, u: World<D>, saved: Saved, walk: seq<Oid>)
    requires TouchesIndex(w, saved, walk) ==> !u.index.TornIndex?
    requires Diagnose(u, saved, walk) == Diagnose(w, saved, walk) && Tip(u, u.head) == Tip(w, w.head)
    ensures !Stuck(u, saved, walk)
  {
    hide Diagnose;
  }

  lemma SettleSettled<D>(proj: Tree -> D, w: World<D>, u: World<D>, walk: seq<Oid>, saved: Saved)
    requires w.journal == Some(saved) && WellSaved(saved) && u == Run(proj, w, SettleSteps(w, saved, walk))
    requires u.journal.None?
    ensures Settle(proj, u, walk) == Settle(proj, w, walk)
  {
    hide SettleSteps, WellSaved, Run;
  }

  lemma SettleRuns<D>(proj: Tree -> D, w: World<D>, walk: seq<Oid>, saved: Saved)
    requires w.journal == Some(saved) && WellSaved(saved)
    ensures Settle(proj, w, walk) == Run(proj, w, SettleSteps(w, saved, walk))
  {
    hide SettleSteps, WellSaved, Run;
  }

  lemma SettledNoJournal<D>(proj: Tree -> D, w: World<D>, saved: Saved, walk: seq<Oid>)
    ensures Settled(proj, w, saved, walk).journal == if Stuck(w, saved, walk) then w.journal else None
  {
    hide Stuck;
  }

  lemma StillSound<D>(w: World<D>, u: World<D>, saved: Saved, walk: seq<Oid>)
    requires WellSaved(saved) && !Fragile(w, saved, walk)
    requires Within(w, u, TouchesIndex(w, saved, walk), TouchedPaths(w, saved, walk), saved.before)
    ensures !Fragile(u, saved, walk)
  {
    hide Diagnose, PartOf, RevertPaths;
    WithinDiagnose(w, u, saved, walk, TouchesIndex(w, saved, walk), TouchedPaths(w, saved, walk));
    if Diagnose(w, saved, walk).Foreign? {
      forall p
        ensures !FragilePath(u.files, saved, p)
      {
        assert !FragilePath(w.files, saved, p);
      }
    }
  }

  /** At a fragile path some interruption is final: the next run leaves the half-written file. */
  lemma FragileLoses<D>(proj: Tree -> D, w: World<D>, walk: seq<Oid>, saved: Saved) returns (at: Stop)
    requires w.journal == Some(saved) && WellSaved(saved) && Fragile(w, saved, walk)
    ensures StopsIn(at, SettleSteps(w, saved, walk))
    ensures var u := StoppedAt(proj, w, SettleSteps(w, saved, walk), at);
      u.journal == Some(saved) && Settle(proj, u, walk) != Settle(proj, w, walk)
  {
    hide *;
    var p, n, i := FragileWitness(w, saved, walk);
    var b := saved.before[p].value;
    var paths := RevertPaths(w.files, saved, saved.order);
    at := Stop(i, Some(n));
    var steps := FileSteps(w, saved, walk) + [RebuildSql];
    TornRestore(proj, w, saved, walk, p, n, i);
    var u := StoppedAt(proj, w, steps, at);
    forall s | s in steps
      ensures Mild(s, TouchesIndex(w, saved, walk), paths, saved.before)
    {
      FileStepsMild(w, saved, walk, s);
    }
    MildStop(proj, w, steps, at, TouchesIndex(w, saved, walk), paths, saved.before);
    WithinDiagnose(w, u, saved, walk, TouchesIndex(w, saved, walk), paths);
    SettleIs(proj, w, walk, saved);
    SettleIs(proj, u, walk, saved);
    TornStays(proj, w, u, saved, walk, p, n);
  }

  lemma FragileWitness<D>(w: World<D>, saved: Saved, walk: seq<Oid>) returns (p: Path, n: nat, i: nat)
    requires WellSaved(saved) && Fragile(w, saved, walk)
    ensures Diagnose(w, saved, walk).Foreign?
    ensures TouchedPaths(w, saved, walk) == RevertPaths(w.files, saved, saved.order)
    ensures var paths := RevertPaths(w.files, saved, saved.order); i < |paths| && paths[i] == p
    ensures p in saved.before && saved.before[p].Some? && p in saved.after && n < |saved.before[p].value|
    ensures Some(Prefix(saved.before[p].value, n)) != saved.after[p]
  {
    hide Diagnose, WellSaved;
    p :| FragilePath(w.files, saved, p);
    n :| n < |saved.before[p].value| && Some(Prefix(saved.before[p].value, n)) != saved.after[p];
    var paths := RevertPaths(w.files, saved, saved.order);
    assert p in paths;
    i :| 0 <= i < |paths| && paths[i] == p;
  }

  /** The interrupted write leaves a proper prefix of the original bytes. */
  lemma TornRestore<D>(proj: Tree -> D, w: World<D>, saved: Saved, walk: seq<Oid>, p: Path, n: nat, i: nat)
    requires WellSaved(saved) && Diagnose(w, saved, walk).Foreign?
    requires var paths := RevertPaths(w.files, saved, saved.order); i < |paths| && paths[i] == p
    requires p in saved.before && saved.before[p].Some? && n < |saved.before[p].value|
    ensures var steps := FileSteps(w, saved, walk) + [RebuildSql];
      && StopsIn(Stop(i, Some(n)), steps) && StopsIn(Stop(i, Some(n)), SettleSteps(w, saved, walk))
      && StoppedAt(proj, w, SettleSteps(w, saved, walk), Stop(i, Some(n))) ==
           StoppedAt(proj, w, steps, Stop(i, Some(n)))
      && Get(StoppedAt(proj, w, steps, Stop(i, Some(n))).files, p) == Some(Prefix(saved.before[p].value, n))
  {
    hide Diagnose, RevertPaths, Run;
    var restores: seq<Prim<D>> := RestoreSteps(RevertPaths(w.files, saved, saved.order), saved.before);
    var steps := restores + [RebuildSql];
    assert SettleSteps(w, saved, walk) == steps + [RemoveJournal];
    assert steps[i] == WriteFile(p, saved.before[p].value) && (steps + [RemoveJournal])[i] == steps[i];
    assert (steps + [RemoveJournal])[..i] == steps[..i];
  }

  lemma TornStays<D>(proj: Tree -> D, w: World<D>, u: World<D>, saved: Saved, walk: seq<Oid>, p: Path, n: nat)
    requires Diagnose(w, saved, walk).Foreign? && Diagnose(u, saved, walk).Foreign?
    requires p in RevertPaths(w.files, saved, saved.order) && p in saved.before && saved.before[p].Some?
    requires p in saved.after
    requires n < |saved.before[p].value| && Some(Prefix(saved.before[p].value, n)) != saved.after[p]
    requires Get(u.files, p) == Some(Prefix(saved.before[p].value, n))
    ensures Settled(proj, u, saved, walk) != Settled(proj, w, saved, walk)
  {
    hide Diagnose, Changed, Only;
    assert |Prefix(saved.before[p].value, n)| == n;
    assert Get(SettledFiles(w, saved, walk), p) == saved.before[p];
    assert Get(SettledFiles(u, saved, walk), p) == Get(u.files, p);
  }

  // ----- exactly when recovery can be repeated -----

  /** Recovery goes all the way, and can be stopped anywhere: its index opens, there is no index
      file to write back, and no file of the operation can be lost half-way. */
  ghost predicate Sturdy<D>(w: World<D>, saved: Saved, walk: seq<Oid>)
  {
    && !Stuck(w, saved, walk) && !Fragile(w, saved, walk)
    && (TouchesIndex(w, saved, walk) ==> saved.index.NoIndex?)
  }

  /** Stopped there, recovery can simply be run again, and finishes. */
  ghost predicate RecoversFrom<D>(proj: Tree -> D, w: World<D>, walk: seq<Oid>, saved: Saved, at: Stop)
    requires w.journal == Some(saved) && WellSaved(saved) && StopsIn(at, SettleSteps(w, saved, walk))
  {
    var u := StoppedAt(proj, w, SettleSteps(w, saved, walk), at);
    && (u.journal.Some? ==> u.journal == Some(saved))
    && Settle(proj, u, walk) == Settle(proj, w, walk) && Settle(proj, u, walk).journal.None?
  }

  lemma RecoversIs<D>(proj: Tree -> D, w: World<D>, walk: seq<Oid>, saved: Saved, at: Stop)
    requires w.journal == Some(saved) && WellSaved(saved) && StopsIn(at, SettleSteps(w, saved, walk))
    ensures RecoversFrom(proj, w, walk, saved, at) <==>
      var u := StoppedAt(proj, w, SettleSteps(w, saved, walk), at);
      && (u.journal.Some? ==> u.journal == Some(saved))
      && Settle(proj, u, walk) == Settle(proj, w, walk) && Settle(proj, u, walk).journal.None?
  {
    hide Settle, SettleSteps, StoppedAt, StopsIn, WellSaved;
  }

  /** Where a recovery that loses no file can be stopped: anywhere but inside the write of an
      index file. */
  lemma StopExact<D>(proj: Tree -> D, w: World<D>, walk: seq<Oid>, saved: Saved, at: Stop)
    requires w.journal == Some(saved) && WellSaved(saved) && !Stuck(w, saved, walk) && !Fragile(w, saved, walk)
    requires StopsIn(at, SettleSteps(w, saved, walk))
    ensures RecoversFrom(proj, w, walk, saved, at) <==> !TearsIndex(at, SettleSteps(w, saved, walk))
  {
    hide *;
    var u := StoppedAt(proj, w, SettleSteps(w, saved, walk), at);
    SettleAfterStop(proj, w, walk, saved, at);
    RecoversIs(proj, w, walk, saved, at);
    SettleIs(proj, w, walk, saved);
    SettledNoJournal(proj, w, saved, walk);
    StillGoodIs(u, saved, walk);
    if TearsIndex(at, SettleSteps(w, saved, walk)) {
      SettleIs(proj, u, walk, saved);
      SettledNoJournal(proj, u, saved, walk);
    }
  }

  /** Exactly when recovery is re-entrant. */
  lemma ReentrantExact<D>(proj: Tree -> D, w: World<D>, walk: seq<Oid>, saved: Saved)
    requires w.journal == Some(saved) && WellSaved(saved)
    ensures Sturdy(w, saved, walk) <==>
      forall at :: StopsIn(at, SettleSteps(w, saved, walk)) ==> RecoversFrom(proj, w, walk, saved, at)
  {
    hide *;
    SturdyIs(w, saved, walk);
    if Stuck(w, saved, walk) {
      var at := Stop(0, None);
      StopNowhere(proj, w, SettleSteps(w, saved, walk));
      RecoversIs(proj, w, walk, saved, at);
      SettleIs(proj, w, walk, saved);
      SettledNoJournal(proj, w, saved, walk);
      assert !RecoversFrom(proj, w, walk, saved, at);
    } else if Fragile(w, saved, walk) {
      var at := FragileLoses(proj, w, walk, saved);
      RecoversIs(proj, w, walk, saved, at);
      assert !RecoversFrom(proj, w, walk, saved, at);
    } else if TouchesIndex(w, saved, walk) && !saved.index.NoIndex? {
      var at := IndexTear(w, saved, walk);
      StopExact(proj, w, walk, saved, at);
      assert !RecoversFrom(proj, w, walk, saved, at);
    } else {
      forall at | StopsIn(at, SettleSteps(w, saved, walk))
        ensures RecoversFrom(proj, w, walk, saved, at)
      {
        NeverTears(w, saved, walk, at);
        StopExact(proj, w, walk, saved, at);
      }
    }
  }

  lemma SturdyIs<D>(w: World<D>, saved: Saved, walk: seq<Oid>)
    ensures Sturdy(w, saved, walk) <==>
      && !Stuck(w, saved, walk) && !Fragile(w, saved, walk)
      && (TouchesIndex(w, saved, walk) ==> saved.index.NoIndex?)
  {
    hide Stuck, Fragile, TouchesIndex;
  }

  lemma StopNowhere<D>(proj: Tree -> D, w: World<D>, steps: seq<Prim<D>>)
    ensures StopsIn(Stop(0, None), steps) && StoppedAt(proj, w, steps, Stop(0, None)) == w
  {
    assert steps[..0] == [];
  }

  /** The stop inside the write of the index file. */
  lemma IndexTear<D>(w: World<D>, saved: Saved, walk: seq<Oid>) returns (at: Stop)
    requires WellSaved(saved) && !Stuck(w, saved, walk) && TouchesIndex(w, saved, walk) && !saved.index.NoIndex?
    ensures StopsIn(at, SettleSteps(w, saved, walk)) && TearsIndex(at, SettleSteps(w, saved, walk))
  {
    hide Diagnose, RestoreSteps;
    at := Stop(if Diagnose(w, saved, walk).Nothing? then |saved.order| else 0, Some(0));
    assert SettleSteps(w, saved, walk)[at.done] == RestoreIndex(saved.index);
  }

  lemma NeverTears<D>(w: World<D>, saved: Saved, walk: seq<Oid>, at: Stop)
    requires WellSaved(saved) && !Stuck(w, saved, walk) && (TouchesIndex(w, saved, walk) ==> saved.index.NoIndex?)
    requires StopsIn(at, SettleSteps(w, saved, walk))
    ensures !TearsIndex(at, SettleSteps(w, saved, walk))
  {
    hide FileSteps, TouchesIndex, WellSaved, Stuck;
    var steps := FileSteps(w, saved, walk) + [RebuildSql];
    if TearsIndex(at, SettleSteps(w, saved, walk)) {
      assert at.done < |steps| && steps[at.done] == SettleSteps(w, saved, walk)[at.done];
      TearTouches(w, saved, walk, at);
    }
  }

  /** Any number of interrupted recoveries, one after the other. */
  ghost predicate Interrupted<D>(proj: Tree -> D, worlds: seq<World<D>>, walk: seq<Oid>, stops: seq<Stop>)
  {
    && |worlds| == |stops| + 1
    && forall i :: 0 <= i < |stops| ==> InterruptedOnce(proj, worlds[i], worlds[i + 1], walk, stops[i])
  }

  ghost predicate InterruptedOnce<D>(proj: Tree -> D, w: World<D>, u: World<D>, walk: seq<Oid>, at: Stop)
  {
    if w.journal.None? then u == w
    else
      && WellSaved(w.journal.value) && StopsIn(at, SettleSteps(w, w.journal.value, walk))
      && u == StoppedAt(proj, w, SettleSteps(w, w.journal.value, walk), at)
  }

  /** None of these recoveries was stopped inside the write of an index file. */
  ghost predicate NoIndexTears<D>(worlds: seq<World<D>>, walk: seq<Oid>, stops: seq<Stop>)
    requires |worlds| == |stops| + 1
  {
    forall i :: 0 <= i < |stops| && worlds[i].journal.Some? && WellSaved(worlds[i].journal.value) ==>
      !TearsIndex(stops[i], SettleSteps(worlds[i], worlds[i].journal.value, walk))
  }

  /** Recovery is re-entrant: however often it is interrupted, and wherever but inside the write
      of an index file, the next complete run ends in the same state as one uninterrupted run. */
  lemma {:induction false} RecoveryReentrant<D>(proj: Tree -> D, worlds: seq<World<D>>, walk: seq<Oid>,
                                                stops: seq<Stop>, saved: Saved)
    requires Interrupted(proj, worlds, walk, stops) && NoIndexTears(worlds, walk, stops)
    requires WellSaved(saved) && StillGood(worlds[0], saved, walk)
    ensures var u := worlds[|stops|];
      && StillGood(u, saved, walk) && (u.journal.Some? ==> u.journal == Some(saved))
      && Settle(proj, u, walk) == Settle(proj, worlds[0], walk) && Settle(proj, u, walk).journal.None?
    decreases |stops|
  {
    hide Settle, Fragile, Stuck, WellSaved, SettleSteps, StoppedAt, TearsIndex;
    var w := worlds[0];
    if stops == [] {
      GoodSettles(proj, w, walk, saved);
    } else {
      var u := worlds[1];
      assert InterruptedOnce(proj, w, u, walk, stops[0]);
      if w.journal.Some? { SettleAfterStop(proj, w, walk, saved, stops[0]); }
      RestOfRun(proj, worlds, walk, stops);
      RecoveryReentrant(proj, worlds[1..], walk, stops[1..], saved);
    }
  }

  lemma RestOfRun<D>(proj: Tree -> D, worlds: seq<World<D>>, walk: seq<Oid>, stops: seq<Stop>)
    requires Interrupted(proj, worlds, walk, stops) && NoIndexTears(worlds, walk, stops) && stops != []
    ensures Interrupted(proj, worlds[1..], walk, stops[1..]) && NoIndexTears(worlds[1..], walk, stops[1..])
  {
    hide InterruptedOnce, TearsIndex, SettleSteps, WellSaved;
    var later, after := worlds[1..], stops[1..];
    forall i | 0 <= i < |after|
      ensures InterruptedOnce(proj, later[i], later[i + 1], walk, after[i])
    {
      assert InterruptedOnce(proj, worlds[i + 1], worlds[i + 2], walk, stops[i + 1]);
    }
    forall i | 0 <= i < |after| && later[i].journal.Some? && WellSaved(later[i].journal.value)
      ensures !TearsIndex(after[i], SettleSteps(later[i], later[i].journal.value, walk))
    {
      assert later[i] == worlds[i + 1];
    }
  }

  lemma GoodSettles<D>(proj: Tree -> D, w: World<D>, walk: seq<Oid>, saved: Saved)
    requires WellSaved(saved) && StillGood(w, saved, walk)
    ensures Settle(proj, w, walk).journal.None?
  {
    hide Stuck, Fragile, WellSaved, SettleSteps, Run;
    if w.journal.Some? {
      SettleIs(proj, w, walk, saved);
      SettledNoJournal(proj, w, saved, walk);
    }
  }

  /** Once stuck, always stuck: no number of further runs, whole or interrupted, opens the index
      or removes the journal. */
  lemma {:induction false} StuckForever<D>(proj: Tree -> D, worlds: seq<World<D>>, walk: seq<Oid>, stops: seq<Stop>,
                                           saved: Saved)
    requires Interrupted(proj, worlds, walk, stops)
    requires worlds[0].journal == Some(saved) && WellSaved(saved) && Stuck(worlds[0], saved, walk)
    ensures var u := worlds[|stops|];
      u.journal == Some(saved) && Stuck(u, saved, walk) && Settle(proj, u,
                                                                  walk).journal == Some(saved) && u.db == worlds[0].db
    decreases |stops|
  {
    hide Settle, Stuck, WellSaved, SettleSteps, StoppedAt;
    var w := worlds[0];
    if stops == [] {
      SettleIs(proj, w, walk, saved);
      SettledNoJournal(proj, w, saved, walk);
    } else {
      assert InterruptedOnce(proj, w, worlds[1], walk, stops[0]);
      StuckStep(proj, w, walk, saved, stops[0]);
      var later, after := worlds[1..], stops[1..];
      forall i | 0 <= i < |after|
        ensures InterruptedOnce(proj, later[i], later[i + 1], walk, after[i])
      {
        assert InterruptedOnce(proj, worlds[i + 1], worlds[i + 2], walk, stops[i + 1]);
      }
      StuckForever(proj, worlds[1..], walk, stops[1..], saved);
    }
  }

  lemma StuckStep<D>(proj: Tree -> D, w: World<D>, walk: seq<Oid>, saved: Saved, at: Stop)
    requires w.journal == Some(saved) && WellSaved(saved) && Stuck(w, saved, walk)
    requires StopsIn(at, SettleSteps(w, saved, walk))
    ensures var u := StoppedAt(proj, w, SettleSteps(w, saved, walk), at);
      u.journal == Some(saved) && Stuck(u, saved, walk) && u.db == w.db
  {
    hide *;
    var steps := FileSteps(w, saved, walk);
    SettleStepsAre(w, saved, walk);
    var u := StoppedAt(proj, w, steps, at);
    forall s | s in steps
      ensures Mild(s, false, TouchedPaths(w, saved, walk), saved.before)
    {
      StuckMild(w, saved, walk, s);
    }
    MildStop(proj, w, steps, at, false, TouchedPaths(w, saved, walk), saved.before);
    WithinDiagnose(w, u, saved, walk, false, TouchedPaths(w, saved, walk));
    StuckStays(w, u, saved, walk);
    RestoresKeepDb(proj, w, saved, walk, at);
  }

  lemma StuckMild<D>(w: World<D>, saved: Saved, walk: seq<Oid>, s: Prim<D>)
    requires WellSaved(saved) && Stuck(w, saved, walk) && s in FileSteps(w, saved, walk)
    ensures Mild(s, false, TouchedPaths(w, saved, walk), saved.before) && !s.RebuildSql?
  {
    hide Diagnose;
    var restores: seq<Prim<D>> := RestoreSteps(saved.order, saved.before);
    if s in restores {
      var i :| 0 <= i < |restores| && restores[i] == s;
      assert saved.order[i] in saved.order;
    }
  }

  lemma StuckStays<D>(w: World<D>, u: World<D>, saved: Saved, walk: seq<Oid>)
    requires Stuck(w, saved, walk) && u.index == w.index
    requires Diagnose(u, saved, walk) == Diagnose(w, saved, walk) && Tip(u, u.head) == Tip(w, w.head)
    ensures Stuck(u, saved, walk)
  {
    hide Diagnose;
  }

  lemma RestoresKeepDb<D>(proj: Tree -> D, w: World<D>, saved: Saved, walk: seq<Oid>, at: Stop)
    requires WellSaved(saved) && Stuck(w, saved, walk) && StopsIn(at, FileSteps(w, saved, walk))
    ensures StoppedAt(proj, w, FileSteps(w, saved, walk), at).db == w.db
  {
    hide FileSteps, Stuck, WellSaved, Run;
    var steps := FileSteps(w, saved, walk);
    forall s | s in steps[..at.done]
      ensures !s.RebuildSql? && !s.CommitSql?
    {
      assert s in steps;
      StuckMild(w, saved, walk, s);
    }
    DbKept(proj, w, steps[..at.done]);
  }

  lemma {:induction false} DbKept<D>(proj: Tree -> D, w: World<D>, steps: seq<Prim<D>>)
    requires forall s :: s in steps ==> !s.RebuildSql? && !s.CommitSql?
    ensures Run(proj, w, steps).db == w.db
    decreases |steps|
  {
    if steps != [] {
      assert steps[0] in steps;
      DbKept(proj, Eff(proj, w, steps[0]), steps[1..]);
    }
  }
}

/** Crash atomicity and rollback of `CardStore::apply_card_changes`. */
module Atomicity {
  import opened Common
  import opened Journal
  import opened Recovery

  // ----- the two outcomes -----

  /** As before the call. Commit objects without a ref and the scratch file do not count. */
  ghost predicate Undone<D>(w: World<D>, u: World<D>)
  {
    u == w.(commits := u.commits, scratch := u.scratch) &&
    forall c :: c in w.commits ==> c in u.commits && u.commits[c] == w.commits[c]
  }

  /** As after the call: one commit on the branch, every changed path with its intended bytes
      in files and commit, unrelated staged entries kept, and the database the projection of
      the files. */
  ghost function Done<D>(w: World<D>, op: Operation<D>): World<D>
  {
    w.(files := Changed(w.files, Intended(op.renames, op.writes)),
       index := Index(Overlay(Entries(w.index), CommitTree(w, op), op.paths)),
       commits := w.commits[op.oid := Commit(ParentsOf(Tip(w, w.head)), CommitTree(w, op))],
       refs := w.refs[w.head := op.oid],
       db := op.rows)
  }

  ghost predicate DoneAs<D>(w: World<D>, op: Operation<D>, u: World<D>)
  {
    u == Done(w, op).(scratch := u.scratch)
  }

  // ----- before the commit -----

  /** Only journaled files and the index have changed. */
  ghost predicate Underway<D>(w: World<D>, saved: Saved, u: World<D>)
  {
    && u == w.(files := u.files, index := u.index, commits := u.commits, scratch := u.scratch, journal := u.journal)
    && (forall c :: c in w.commits ==> c in u.commits && u.commits[c] == w.commits[c])
    && (forall p :: p !in saved.order ==> Get(u.files, p) == Get(w.files, p))
  }

  /** A step that stays on journaled paths and the index. */
  predicate Local<D>(s: Prim<D>, paths: seq<Path>)
  {
    match s
    case ResetIndex => true
    case Unstage(_) => true
    case Stage(_) => true
    case RestoreIndex(_) => true
    case OverlayIndex(_, _) => true
    case RenameFile(from, to) => from in paths && to in paths
    case WriteFile(p, _) => p in paths
    case RemoveFile(p) => p in paths
    case _ => false
  }

  lemma LocalStep<D>(proj: Tree -> D, w: World<D>, saved: Saved, u: World<D>, s: Prim<D>, n: nat)
    requires Underway(w, saved, u) && Local(s, saved.order)
    ensures Underway(w, saved, Eff(proj, u, s)) && Underway(w, saved, Tear(u, s, n))
    ensures Eff(proj, u, s).journal == Tear(u, s, n).journal == u.journal
  {
    forall p | p !in saved.order
      ensures Get(Eff(proj, u, s).files, p) == Get(u.files, p) && Get(Tear(u, s, n).files, p) == Get(u.files, p)
    {
    }
  }

  lemma {:induction false} LocalRun<D>(proj: Tree -> D, w: World<D>, saved: Saved, u: World<D>, steps: seq<Prim<D>>)
    requires Underway(w, saved, u) && forall s :: s in steps ==> Local(s, saved.order)
    ensures Underway(w, saved, Run(proj, u, steps)) && Run(proj, u, steps).journal == u.journal
    decreases |steps|
  {
    hide Underway, Local, Eff, Tear;
    if steps != [] {
      assert steps[0] in steps;
      LocalStep(proj, w, saved, u, steps[0], 0);
      LocalRun(proj, w, saved, Eff(proj, u, steps[0]), steps[1..]);
    }
  }

  lemma LocalStop<D>(proj: Tree -> D, w: World<D>, saved: Saved, u: World<D>, steps: seq<Prim<D>>, at: Stop)
    requires Underway(w, saved, u) && StopsIn(at, steps) && forall s :: s in steps ==> Local(s, saved.order)
    ensures Underway(w, saved, StoppedAt(proj, u, steps, at)) && StoppedAt(proj, u, steps, at).journal == u.journal
  {
    hide Underway, Local, Eff, Tear, Run;
    assert forall s :: s in steps[..at.done] ==> s in steps;
    LocalRun(proj, w, saved, u, steps[..at.done]);
    if at.torn.Some? {
      assert steps[at.done] in steps;
      LocalStep(proj, w, saved, Run(proj, u, steps[..at.done]), steps[at.done], at.torn.value);
    }
  }

  lemma {:induction false} RenamesLocal<D>(renames: seq<(Path, Path)>, paths: seq<Path>, s: Prim<D>)
    requires s in RenameSteps<D>(renames) && forall r :: r in renames ==> r.0 in paths && r.1 in paths
    ensures Local(s, paths)
    decreases |renames|
  {
    assert renames[0] in renames;
    if s in RenameSteps<D>(renames[1..]) { RenamesLocal(renames[1..], paths, s); }
  }

  lemma {:induction false} WritesLocal<D>(writes: seq<(Path, Bytes)>, paths: seq<Path>, s: Prim<D>)
    requires s in WriteSteps<D>(writes) && forall r :: r in writes ==> r.0 in paths
    ensures Local(s, paths)
    decreases |writes|
  {
    assert writes[0] in writes;
    if s in WriteSteps<D>(writes[1..]) { WritesLocal(writes[1..], paths, s); }
  }

  lemma WorkLocal<D>(files: Tree, op: Operation<D>, s: Prim<D>)
    requires Planned(files, op) && s in WorkSteps(op)
    ensures Local(s, op.paths)
  {
    forall r | r in op.renames
      ensures r.0 in op.paths && r.1 in op.paths
    {
      assert r.0 in Sources(op.renames) && r.1 in Targets(op.renames);
    }
    forall r | r in op.writes
      ensures r.0 in op.paths
    {
      assert r.0 in Written(op.writes);
    }
    if s in RenameSteps<D>(op.renames) { RenamesLocal(op.renames, op.paths, s); }
    else if s in WriteSteps<D>(op.writes) { WritesLocal(op.writes, op.paths, s); }
  }

  ghost predicate DistinctPaths(paths: seq<Path>)
  {
    forall i, j :: 0 <= i < j < |paths| ==> paths[i] != paths[j]
  }

  /** The journal of a prepared operation lists its paths once each and names its files. */
  lemma SavedWell<D>(w: World<D>, op: Operation<D>)
    requires Planned(w.files, op) && DistinctPaths(op.paths) && !w.index.TornIndex?
    ensures WellSaved(Save(w, op))
  {
    hide CommitTree;
    forall p | p in Save(w, op).after
      ensures p in Save(w, op).before
    {
      CommitIsolation(w, op, p);
    }
  }

  /** Recovery before the commit puts everything back, if the index file opens. */
  lemma UnderwaySettles<D>(proj: Tree -> D, w: World<D>, op: Operation<D>, u: World<D>, walk: seq<Oid>)
    requires Ready(proj, w) && Underway(w, Save(w, op), u) && u.journal == Some(Save(w, op)) && WellSaved(Save(w, op))
    ensures if u.index.TornIndex? then Stuck(u, Save(w, op), walk) else Undone(w, Settle(proj, u, walk))
  {
    var saved := Save(w, op);
    hide WellSaved, Changed, Only, Save, Settle;
    SaveOrder(w, op);
    SettleIs(proj, u, walk, saved);
    assert Diagnose(u, saved, walk) == Nothing;
    forall p
      ensures Get(SettledFiles(u, saved, walk), p) == Get(w.files, p)
    {
      if p in saved.order { SnapshotAt(w, op, p); }
    }
    SameMap(SettledFiles(u, saved, walk), w.files);
  }

  // ----- after the commit -----

  /** The commit is on the branch and the journal still there. */
  ghost predicate LandedWorld<D>(w: World<D>, op: Operation<D>, u: World<D>)
  {
    u == Done(w, op).(index := u.index, db := u.db, journal := Some(Save(w, op)), scratch := u.scratch)
  }

  ghost predicate ReachesIn(commits: map<Oid, Commit>, a: Oid, b: Oid, n: nat)
    decreases n
  {
    a in commits &&
    if n == 0 then a == b
    else exists i :: 0 <= i < |commits[a].parents| && ReachesIn(commits, commits[a].parents[i], b, n - 1)
  }

  ghost predicate Reaches(commits: map<Oid, Commit>, a: Oid, b: Oid)
  {
    exists n: nat :: ReachesIn(commits, a, b, n)
  }

  /** The revision walk from `tip` with `hidden` hidden, in some order. */
  ghost predicate IsWalk(commits: map<Oid, Commit>, tip: Oid, hidden: Option<Oid>, walk: seq<Oid>)
  {
    && (forall c :: c in walk <==> Reaches(commits, tip, c) && !(hidden.Some? && Reaches(commits, hidden.value, c)))
    && (forall i, j :: 0 <= i < j < |walk| ==> walk[i] != walk[j])
  }

  lemma {:induction false} AncestorsAreOlder(commits: map<Oid, Commit>, a: Oid, b: Oid, n: nat)
    requires History(commits) && ReachesIn(commits, a, b, n)
    ensures b <= a
    decreases n
  {
    if n > 0 {
      var i :| 0 <= i < |commits[a].parents| && ReachesIn(commits, commits[a].parents[i], b, n - 1);
      AncestorsAreOlder(commits, commits[a].parents[i], b, n - 1);
    }
  }

  /** The operation's own commit is found however many commits were made on top of it, as
      long as it comes within the search bound of the walk. */
  lemma OperationInWalk(commits: map<Oid, Commit>, tip: Oid, head: Option<Oid>, c: Oid, walk: seq<Oid>)
    requires History(commits) && IsWalk(commits, tip, head, walk) && Reaches(commits, tip, c)
    requires head.Some? ==> head.value < c
    ensures exists i :: 0 <= i < |walk| && walk[i] == c
  {
    if head.Some? && Reaches(commits, head.value, c) {
      var n: nat :| ReachesIn(commits, head.value, c, n);
      AncestorsAreOlder(commits, head.value, c, n);
    }
    assert c in walk;
  }

  lemma AboveHead(commits: map<Oid, Commit>, oid: Oid, head: Option<Oid>, c: Oid, n: nat)
    requires oid in commits && commits[oid].parents == ParentsOf(head) && ReachesIn(commits, oid, c, n)
    ensures c == oid || (head.Some? && Reaches(commits, head.value, c))
  {
    if n > 0 {
      var i :| 0 <= i < |commits[oid].parents| && ReachesIn(commits, commits[oid].parents[i], c, n - 1);
      assert commits[oid].parents[i] == head.value;
    }
  }

  /** Straight after the commit the walk is that one commit. */
  lemma WalkIsCommit(commits: map<Oid, Commit>, oid: Oid, head: Option<Oid>, walk: seq<Oid>)
    requires History(commits) && oid in commits && commits[oid].parents == ParentsOf(head)
    requires IsWalk(commits, oid, head, walk)
    ensures walk == [oid]
  {
    assert ReachesIn(commits, oid, oid, 0);
    assert head.Some? ==> commits[oid].parents[0] == head.value;
    OperationInWalk(commits, oid, head, oid, walk);
    forall c | c in walk
      ensures c == oid
    {
      var n: nat :| ReachesIn(commits, oid, c, n);
      AboveHead(commits, oid, head, c, n);
    }
    assert walk[0] in walk && walk[|walk| - 1] in walk;
  }

  lemma DoneHistory<D>(proj: Tree -> D, w: World<D>, op: Operation<D>)
    requires Ready(proj, w) && Prepared(proj, w, op)
    ensures History(Done(w, op).commits)
    ensures Tip(w, w.head).Some? ==> Tip(w, w.head).value < op.oid
  {
  }

  /** Recovery after the commit keeps it and rebuilds the same index as an undisturbed run, if
      the index file opens. */
  lemma LandedSettles<D>(proj: Tree -> D, w: World<D>, op: Operation<D>, u: World<D>, walk: seq<Oid>)
    requires Ready(proj, w) && Prepared(proj, w, op) && LandedWorld(w, op, u) && WellSaved(Save(w, op))
    requires IsWalk(u.commits, op.oid, Tip(w, w.head), walk)
    ensures if u.index.TornIndex? then Stuck(u, Save(w, op), walk) else DoneAs(w, op, Settle(proj, u, walk))
  {
    hide *;
    var saved := Save(w, op);
    PreparedPlan(proj, w, op);
    SaveOrder(w, op);
    DoneHistory(proj, w, op);
    LandedFields(w, op, u);
    LandedFacts(w, op, u);
    WalkIsCommit(u.commits, op.oid, Tip(w, w.head), walk);
    OperationRecognised(w, op, u);
    LandedFirst(u, saved, op.oid);
    LandedDiagnosis(w, u, saved, op.oid);
    SettleIs(proj, u, walk, saved);
    LandedIs(proj, w, op, u, walk);
  }

  lemma LandedDiagnosis<D>(w: World<D>, u: World<D>, saved: Saved, oid: Oid)
    requires saved.branch == w.head == u.head && saved.head == Tip(w, w.head) && u.refs == w.refs[w.head := oid]
    requires saved.head.Some? ==> saved.head.value < oid
    requires LandedIn(u.commits, saved, [oid], SEARCH_LIMIT) == Some(oid)
    ensures Diagnose(u, saved, [oid]) == Landed(oid) && Tip(u, u.head) == Some(oid)
  {
    hide LandedIn;
  }

  lemma LandedIs<D>(proj: Tree -> D, w: World<D>, op: Operation<D>, u: World<D>, walk: seq<Oid>)
    requires LandedWorld(w, op, u) && Diagnose(u, Save(w, op), walk) == Landed(op.oid) && Tip(u, u.head) == Some(op.oid)
    requires Ready(proj, w) && Prepared(proj, w, op)
    ensures if u.index.TornIndex? then Stuck(u, Save(w, op), walk) else DoneAs(w, op,
                                                                               Settled(proj, u, Save(w, op), walk))
  {
    hide Diagnose, Overlay, Changed, CommitTree, Intended;
  }

  /** Commits made on top of a landed operation: if fewer than 10,000 commits of the walk come
      before it, recovery keeps it, them, and every file as it is. Unless HEAD is itself a commit
      that looks like the operation's, that is all: the index stays, torn or not, the journal goes
      and the database is rebuilt. */
  lemma LaterCommitsKept<D>(proj: Tree -> D, u: World<D>, saved: Saved, oid: Oid, walk: seq<Oid>)
    requires u.journal == Some(saved) && WellSaved(saved) && History(u.commits) && IsOperation(u.commits, oid, saved)
    requires Tip(u, saved.branch).Some? && Tip(u, saved.branch) != saved.head
    requires IsWalk(u.commits, Tip(u, saved.branch).value, saved.head, walk)
    requires Reaches(u.commits, Tip(u, saved.branch).value, oid)
    ensures exists i :: 0 <= i < |walk| && walk[i] == oid
    ensures (exists i :: 0 <= i < |walk| && i < SEARCH_LIMIT && walk[i] == oid) ==>
      var v := Settle(proj, u, walk);
      if Tip(u, u.head).None? || !IsOperation(u.commits, Tip(u, u.head).value, saved)
      then v == u.(journal := None, db := proj(u.files))
      else if Stuck(u, saved, walk) then v == u
      else v == u.(index := v.index, journal := None, db := proj(u.files))
  {
    hide IsWalk, Reaches, Settle, WellSaved, IsOperation;
    OlderHead(u.commits, saved, oid);
    OperationInWalk(u.commits, Tip(u, saved.branch).value, saved.head, oid, walk);
    if i :| 0 <= i < |walk| && i < SEARCH_LIMIT && walk[i] == oid {
      assert IsOperation(u.commits, walk[i], saved);
      KeptWithinBound(u, saved, walk);
      SettleIs(proj, u, walk, saved);
      if Tip(u, u.head).None? || !IsOperation(u.commits, Tip(u, u.head).value, saved) {
        IndexLeftAlone(proj, u, walk, saved);
      }
    }
  }

  lemma OlderHead(commits: map<Oid, Commit>, saved: Saved, oid: Oid)
    requires History(commits) && IsOperation(commits, oid, saved)
    ensures saved.head.Some? ==> saved.head.value < oid
  {
    assert saved.head.Some? ==> commits[oid].parents[0] == saved.head.value;
  }

  lemma LandedFirst<D>(u: World<D>, saved: Saved, oid: Oid)
    requires IsOperation(u.commits, oid, saved)
    ensures LandedIn(u.commits, saved, [oid], SEARCH_LIMIT) == Some(oid)
  {
  }

  lemma OperationRecognised<D>(w: World<D>, op: Operation<D>, u: World<D>)
    requires Planned(w.files, op) && op.oid in u.commits
    requires u.commits[op.oid] == Commit(ParentsOf(Tip(w, w.head)), CommitTree(w, op))
    ensures IsOperation(u.commits, op.oid, Save(w, op))
  {
    forall p | p in Save(w, op).after
      ensures Get(CommitTree(w, op), p) == Save(w, op).after[p]
    {
      CommitIsolation(w, op, p);
    }
  }

  // ----- crash atomicity -----

  /** A stop in `s + t` is a stop in `s`, or a stop in `t` after all of `s`. */
  lemma StopSplit<D>(proj: Tree -> D, w: World<D>, s: seq<Prim<D>>, t: seq<Prim<D>>, at: Stop)
    requires StopsIn(at, s + t)
    ensures at.done < |s| ==> StopsIn(at, s) && StoppedAt(proj, w, s + t, at) == StoppedAt(proj, w, s, at)
    ensures at.done >= |s| ==>
        var late := Stop(at.done - |s|, at.torn);
        StopsIn(late, t) && StoppedAt(proj, w, s + t, at) == StoppedAt(proj, Run(proj, w, s), t, late)
  {
    hide Run, Eff, Tear;
    if at.done < |s| {
      assert (s + t)[..at.done] == s[..at.done];
    } else {
      var k := at.done - |s|;
      assert (s + t)[..at.done] == s + t[..k];
      RunConcat(proj, w, s, t[..k]);
    }
  }

  lemma StopSmall<D>(proj: Tree -> D, w: World<D>, steps: seq<Prim<D>>, torn: Option<nat>)
    requires StopsIn(Stop(0, torn), steps)
    ensures StoppedAt(proj, w, steps, Stop(0, torn)) == if torn.Some? then Tear(w, steps[0], torn.value) else w
  {
    assert steps[..0] == [];
  }

  /** The journal is published after two steps; before that nothing has changed. */
  lemma BeginStops<D>(proj: Tree -> D, w: World<D>, saved: Saved, at: Stop)
    requires StopsIn(at, BeginSteps<D>(saved))
    ensures var u := StoppedAt(proj, w, BeginSteps(saved), at);
      u == w.(scratch := u.scratch, journal := if at.done < 2 then w.journal else Some(saved))
  {
    var steps: seq<Prim<D>> := BeginSteps(saved);
    if at.done == 0 {
      StopSmall(proj, w, steps, at.torn);
    } else if at.done == 1 {
      assert steps[..1] == [WriteScratch];
      RunOne(proj, w, WriteScratch);
    } else {
      assert steps[..2] == steps;
      RunPair(proj, w, WriteScratch, PublishJournal(saved));
    }
  }

  /** The world at the commit. */
  lemma CommitLands<D>(proj: Tree -> D, w: World<D>, op: Operation<D>, w1: World<D>)
    requires Planned(w.files, op) && w1 == w.(scratch := w1.scratch, journal := Some(Save(w, op)))
    ensures LandedWorld(w, op, Run(proj, w1, WorkSteps(op) + [MakeCommit(op.oid)]))
    ensures Run(proj, w1, WorkSteps(op) + [MakeCommit(op.oid)]).db == w.db
  {
    hide *;
    SameCommitTree(w, w1, op);
    WorkDone(proj, w1, op);
    var w2 := Run(proj, w1, WorkSteps(op));
    RunConcat(proj, w1, WorkSteps(op), [MakeCommit(op.oid)]);
    RunOne(proj, w2, MakeCommit(op.oid));
    CommitEff(proj, w, op, w2);
  }

  lemma CommitEff<D>(proj: Tree -> D, w: World<D>, op: Operation<D>, w2: World<D>)
    requires w2 == w.(scratch := w2.scratch, journal := Some(Save(w, op)),
                      files := Changed(w.files, Intended(op.renames, op.writes)), index := Index(CommitTree(w, op)))
    ensures LandedWorld(w, op, Eff(proj, w2, MakeCommit(op.oid))) && Eff(proj, w2, MakeCommit(op.oid)).db == w.db
  {
    hide Changed, Intended, CommitTree, Save, Overlay;
  }

  lemma SameCommitTree<D>(w: World<D>, w1: World<D>, op: Operation<D>)
    requires w1 == w.(scratch := w1.scratch, journal := w1.journal)
    ensures CommitTree(w1, op) == CommitTree(w, op)
  {
  }

  /** After the commit: landed until the journal goes, then done. */
  lemma LandStops<D>(proj: Tree -> D, w: World<D>, op: Operation<D>, u: World<D>, at: Stop)
    requires LandedWorld(w, op, u) && StopsIn(at, LandSteps(w, op) + [RemoveJournal])
    requires Ready(proj, w)
    ensures var v := StoppedAt(proj, u, LandSteps(w, op) + [RemoveJournal], at);
      if at.done < 4 then LandedWorld(w, op, v) && (at.done < 3 ==> v.db == u.db) else DoneAs(w, op, v)
  {
    hide Changed, Overlay, CommitTree, Save, Intended, Run;
    var steps := LandSteps(w, op) + [RemoveJournal];
    var u1 := Eff(proj, u, RestoreIndex(w.index));
    var u2 := Eff(proj, u1, OverlayIndex(CommitTree(w, op), op.paths));
    var u3 := Eff(proj, u2, CommitSql(op.rows));
    if at.done == 0 {
      StopSmall(proj, u, steps, at.torn);
    } else if at.done == 1 {
      assert steps[..1] == [RestoreIndex(w.index)];
      RunOne(proj, u, RestoreIndex(w.index));
    } else if at.done == 2 {
      assert steps[..2] == [RestoreIndex(w.index), OverlayIndex(CommitTree(w, op), op.paths)];
      RunPair(proj, u, RestoreIndex(w.index), OverlayIndex(CommitTree(w, op), op.paths));
    } else {
      var two := [RestoreIndex(w.index), OverlayIndex(CommitTree(w, op), op.paths)];
      RunPair(proj, u, RestoreIndex(w.index), OverlayIndex(CommitTree(w, op), op.paths));
      if at.done == 3 {
        assert steps[..3] == two + [CommitSql(op.rows)];
        RunConcat(proj, u, two, [CommitSql(op.rows)]);
        RunOne(proj, u2, CommitSql(op.rows));
      } else {
        assert steps[..4] == two + [CommitSql(op.rows), RemoveJournal];
        RunConcat(proj, u, two, [CommitSql(op.rows), RemoveJournal]);
        RunPair(proj, u2, CommitSql(op.rows), RemoveJournal);
      }
    }
  }

  /** How many steps until the commit is made. */
  ghost function CommitPoint<D>(op: Operation<D>): nat
  {
    2 + |WorkSteps(op)|
  }

  /** Where an operation can be found when it stops: untouched, underway, landed, or done. */
  lemma OperationStops<D>(proj: Tree -> D, w: World<D>, op: Operation<D>, at: Stop)
    requires Ready(proj, w) && Planned(w.files, op) && StopsIn(at, AllSteps(w, op))
    ensures var u := StoppedAt(proj, w, AllSteps(w, op), at);
      if at.done < 2 then u == w.(scratch := u.scratch)
      else if at.done <= CommitPoint(op) then Underway(w, Save(w, op), u) && u.journal == Some(Save(w, op))
      else if at.done <= CommitPoint(op) + 4 then LandedWorld(w, op,
                                                              u) && (at.done <= CommitPoint(op) + 3 ==> u.db == w.db)
      else DoneAs(w, op, u)
  {
    hide Save, Eff, Tear, Run, LandSteps, WorkSteps, LandedWorld, DoneAs, Changed, Underway, StoppedAt, StopsIn;
    var saved := Save(w, op);
    var begin: seq<Prim<D>> := BeginSteps(saved);
    var work: seq<Prim<D>> := WorkSteps(op);
    var commit: seq<Prim<D>> := [MakeCommit(op.oid)];
    var land := LandSteps(w, op) + [RemoveJournal];
    AllStepsIs(w, op);
    StopsBound(at, AllSteps(w, op));
    StopSplit(proj, w, begin, work + commit + land, at);
    if at.done < 2 {
      BeginStops(proj, w, saved, at);
    } else {
      StopWhole(proj, w, begin);
      BeginStops(proj, w, saved, Stop(2, None));
      var w1 := Run(proj, w, begin);
      var late := Stop(at.done - 2, at.torn);
      StopSplit(proj, w1, work + commit, land, late);
      if late.done <= |work| {
        WorkStops(proj, w, op, w1, late);
      } else {
        CommitLands(proj, w, op, w1);
        LandStops(proj, w, op, Run(proj, w1, work + commit), Stop(late.done - |work| - 1, at.torn));
      }
    }
  }

  lemma AllStepsIs<D>(w: World<D>, op: Operation<D>)
    ensures AllSteps(w, op) ==
      BeginSteps(Save(w, op)) + (WorkSteps(op) + [MakeCommit(op.oid)] + (LandSteps(w, op) + [RemoveJournal]))
    ensures |BeginSteps<D>(Save(w, op))| == 2 && |LandSteps(w, op)| == 3
  {
    hide WorkSteps, Save;
  }

  lemma StopsBound<D>(at: Stop, steps: seq<Prim<D>>)
    requires StopsIn(at, steps)
    ensures at.done <= |steps|
  {
  }

  lemma StopWhole<D>(proj: Tree -> D, w: World<D>, steps: seq<Prim<D>>)
    ensures StopsIn(Stop(|steps|, None), steps) && StoppedAt(proj, w, steps, Stop(|steps|, None)) == Run(proj, w, steps)
  {
    assert steps[..|steps|] == steps;
  }

  lemma WorkStops<D>(proj: Tree -> D, w: World<D>, op: Operation<D>, w1: World<D>, at: Stop)
    requires Planned(w.files, op) && w1 == w.(scratch := w1.scratch, journal := Some(Save(w, op)))
    requires StopsIn(at, WorkSteps(op) + [MakeCommit(op.oid)]) && at.done <= |WorkSteps(op)|
    ensures var u := StoppedAt(proj, w1, WorkSteps(op) + [MakeCommit(op.oid)], at);
      Underway(w, Save(w, op), u) && u.journal == Some(Save(w, op))
  {
    hide WorkSteps, Run, Save;
    var work, commit: seq<Prim<D>> := WorkSteps(op), [MakeCommit(op.oid)];
    assert Save(w, op).order == op.paths by { SaveOrder(w, op); }
    assert Underway(w, Save(w, op), w1);
    forall s | s in work
      ensures Local(s, op.paths)
    {
      WorkLocal(w.files, op, s);
    }
    hide Underway, Local, Planned;
    StopSplit(proj, w1, work, commit, at);
    if at.done < |work| {
      LocalStop(proj, w, Save(w, op), w1, work, at);
    } else {
      LocalRun(proj, w, Save(w, op), w1, work);
      StopSmall(proj, Run(proj, w1, work), commit, at.torn);
    }
  }

  lemma SaveOrder<D>(w: World<D>, op: Operation<D>)
    ensures Save(w, op).order == op.paths && Save(w, op).index == w.index
    ensures Save(w, op).head == Tip(w, w.head) && Save(w, op).branch == w.head
  {
  }

  /** Crash atomicity: wherever the operation is interrupted, in the middle of a file write or
      between any two steps, the next use of the project ends in one of two states, decided by
      whether the commit had been made. The one exception is a stop inside the write of the index
      file: then nothing settles any more. */
  lemma CrashAtomicity<D>(proj: Tree -> D, w: World<D>, op: Operation<D>, at: Stop, walk: seq<Oid>)
    requires Ready(proj, w) && Prepared(proj, w, op) && DistinctPaths(op.paths) && StopsIn(at, AllSteps(w, op))
    requires IsWalk(Done(w, op).commits, op.oid, Tip(w, w.head), walk)
    ensures var u := StoppedAt(proj, w, AllSteps(w, op), at);
      && (u.journal.Some? ==> WellSaved(u.journal.value))
      && if TearsIndex(at, AllSteps(w, op)) then StuckWith(u, Save(w, op), walk)
         else if at.done <= CommitPoint(op) then Undone(w, Settle(proj, u, walk))
         else DoneAs(w, op, Settle(proj, u, walk))
  {
    hide *;
    PreparedPlan(proj, w, op);
    ReadyJournal(proj, w);
    var u := StoppedAt(proj, w, AllSteps(w, op), at);
    OperationStops(proj, w, op, at);
    AllWhole(w, op);
    TornExactly(proj, w, AllSteps(w, op), at);
    SavedWell(w, op);
    CommitPointBound(op);
    if at.done < 2 {
      UntouchedSettles(proj, w, u, walk);
    } else if at.done <= CommitPoint(op) {
      UnderwaySettles(proj, w, op, u, walk);
      StuckWithIs(u, Save(w, op), walk);
    } else if at.done <= CommitPoint(op) + 4 {
      LandedFacts(w, op, u);
      LandedSettles(proj, w, op, u, walk);
      StuckWithIs(u, Save(w, op), walk);
    } else {
      DoneSettles(proj, w, op, u, walk);
    }
  }

  /** Recovery of this journal cannot open the index file. By `StuckForever` it never will. */
  ghost predicate StuckWith<D>(u: World<D>, saved: Saved, walk: seq<Oid>)
  {
    u.journal == Some(saved) && Stuck(u, saved, walk)
  }

  lemma StuckWithIs<D>(u: World<D>, saved: Saved, walk: seq<Oid>)
    ensures StuckWith(u, saved, walk) <==> u.journal == Some(saved) && Stuck(u, saved, walk)
  {
    hide Stuck;
  }

  /** Which stop that is: inside the write of the old index file after the commit, in a
      repository that has one. */
  lemma TearIsRestore<D>(w: World<D>, op: Operation<D>, at: Stop)
    ensures TearsIndex(at, AllSteps(w, op)) <==>
      at.torn.Some? && at.done == CommitPoint(op) + 1 && !w.index.NoIndex?
  {
    hide Save, CommitTree, WorkSteps, RenameSteps, WriteSteps;
    var steps := AllSteps(w, op);
    AllStepsIs(w, op);
    if at.done < |steps| && steps[at.done].RestoreIndex? && at.done < CommitPoint(op) {
      if at.done >= 2 {
        assert steps[at.done] == WorkSteps(op)[at.done - 2];
        WorkHasNoRestore(op, at.done - 2);
      }
    }
    assert steps[CommitPoint(op) + 1] == RestoreIndex(w.index);
  }

  lemma {:induction false} RenamesRestoreNothing<D>(renames: seq<(Path, Path)>, s: Prim<D>)
    requires s in RenameSteps<D>(renames)
    ensures !s.RestoreIndex?
    decreases |renames|
  {
    if s in RenameSteps<D>(renames[1..]) { RenamesRestoreNothing(renames[1..], s); }
  }

  lemma {:induction false} WritesRestoreNothing<D>(writes: seq<(Path, Bytes)>, s: Prim<D>)
    requires s in WriteSteps<D>(writes)
    ensures !s.RestoreIndex?
    decreases |writes|
  {
    if s in WriteSteps<D>(writes[1..]) { WritesRestoreNothing(writes[1..], s); }
  }

  lemma WorkHasNoRestore<D>(op: Operation<D>, i: nat)
    requires i < |WorkSteps(op)|
    ensures !WorkSteps(op)[i].RestoreIndex?
  {
    hide RenameSteps, WriteSteps;
    var s := WorkSteps(op)[i];
    assert s == ResetIndex || s in RenameSteps<D>(op.renames) || s in WriteSteps<D>(op.writes);
    if s in RenameSteps<D>(op.renames) { RenamesRestoreNothing(op.renames, s); }
    else if s in WriteSteps<D>(op.writes) { WritesRestoreNothing(op.writes, s); }
  }

  lemma AllWhole<D>(w: World<D>, op: Operation<D>)
    requires !w.index.TornIndex?
    ensures WholeIndexes(AllSteps(w, op)) && WholeIndexes(TrySteps(w, op))
  {
    hide Save, CommitTree, WorkSteps;
    var steps := AllSteps(w, op);
    AllStepsIs(w, op);
    forall s | s in steps && s.RestoreIndex?
      ensures !s.file.TornIndex?
    {
      if s in WorkSteps(op) {
        var i :| 0 <= i < |WorkSteps(op)| && WorkSteps(op)[i] == s;
        WorkHasNoRestore(op, i);
      }
    }
    assert forall s :: s in TrySteps(w, op) ==> s in steps;
  }

  /** The torn stop is final: no number of further recoveries, whole or interrupted, settles it. */
  lemma TornCrashStays<D>(proj: Tree -> D, w: World<D>, op: Operation<D>, at: Stop, walk: seq<Oid>,
                          worlds: seq<World<D>>, stops: seq<Stop>)
    requires Ready(proj, w) && Prepared(proj, w, op) && DistinctPaths(op.paths) && StopsIn(at, AllSteps(w, op))
    requires IsWalk(Done(w, op).commits, op.oid, Tip(w, w.head), walk) && TearsIndex(at, AllSteps(w, op))
    requires Interrupted(proj, worlds, walk, stops) && worlds[0] == StoppedAt(proj, w, AllSteps(w, op), at)
    ensures worlds[|stops|].journal == Some(Save(w, op))
  {
    hide *;
    InterruptedLength(proj, worlds, walk, stops);
    CrashAtomicity(proj, w, op, at, walk);
    StuckWithIs(worlds[0], Save(w, op), walk);
    ReadyJournal(proj, w);
    PreparedPlan(proj, w, op);
    SavedWell(w, op);
    StuckForever(proj, worlds, walk, stops, Save(w, op));
  }

  lemma InterruptedLength<D>(proj: Tree -> D, worlds: seq<World<D>>, walk: seq<Oid>, stops: seq<Stop>)
    requires Interrupted(proj, worlds, walk, stops)
    ensures |worlds| == |stops| + 1
  {
  }

  lemma PreparedPlan<D>(proj: Tree -> D, w: World<D>, op: Operation<D>)
    requires Prepared(proj, w, op)
    ensures Planned(w.files, op)
  {
  }

  lemma CommitPointBound<D>(op: Operation<D>)
    ensures CommitPoint(op) >= 3
  {
  }

  lemma UntouchedSettles<D>(proj: Tree -> D, w: World<D>, u: World<D>, walk: seq<Oid>)
    requires Ready(proj, w) && u == w.(scratch := u.scratch)
    ensures u.journal.None? && Undone(w, Settle(proj, u, walk))
  {
  }

  lemma DoneSettles<D>(proj: Tree -> D, w: World<D>, op: Operation<D>, u: World<D>, walk: seq<Oid>)
    requires Ready(proj, w) && DoneAs(w, op, u)
    ensures u.journal.None? && !u.index.TornIndex? && DoneAs(w, op, Settle(proj, u, walk))
  {
  }

  lemma LandedFacts<D>(w: World<D>, op: Operation<D>, u: World<D>)
    requires LandedWorld(w, op, u)
    ensures u.commits == Done(w, op).commits && u.journal == Some(Save(w, op))
  {
  }

  // ----- how recovery comes to lose a file -----

  /** The operation interrupted just before its commit. */
  lemma BeforeCommit<D>(proj: Tree -> D, w: World<D>, op: Operation<D>)
    requires Planned(w.files, op)
    ensures StopsIn(Stop(CommitPoint(op), None), AllSteps(w, op))
    ensures StoppedAt(proj, w, AllSteps(w, op), Stop(CommitPoint(op), None)) ==
      w.(scratch := NoScratch, journal := Some(Save(w, op)),
         files := Changed(w.files, Intended(op.renames, op.writes)), index := Index(CommitTree(w, op)))
  {
    hide Save, Changed, Intended, CommitTree, WorkSteps, Run, Planned;
    var begin: seq<Prim<D>> := BeginSteps(Save(w, op));
    var w1 := Run(proj, w, begin);
    AllStepsIs(w, op);
    assert AllSteps(w, op)[..CommitPoint(op)] == begin + WorkSteps(op);
    RunPair(proj, w, WriteScratch, PublishJournal(Save(w, op)));
    RunConcat(proj, w, begin, WorkSteps(op));
    WorkDone(proj, w1, op);
    SameCommitTree(w, w1, op);
  }

  /** Somebody commits to the branch. */
  function CommittedBy<D>(u: World<D>, oid: Oid, commit: Commit): World<D>
  {
    u.(commits := u.commits[oid := commit], refs := u.refs[u.head := oid])
  }

  /** Fragile states are reached: an operation that rewrites a file of at least two bytes dies
      before its commit, and then anybody else commits to the branch. */
  lemma FragileArises<D>(proj: Tree -> D, w: World<D>, op: Operation<D>, p: Path, oid: Oid, commit: Commit)
    requires Ready(proj, w) && Prepared(proj, w, op) && DistinctPaths(op.paths)
    requires p in Intended(op.renames, op.writes) && p in w.files && |w.files[p]| >= 2
    requires oid !in w.commits && !IsOperation(map[oid := commit], oid, Save(w, op))
    ensures StopsIn(Stop(CommitPoint(op), None), AllSteps(w, op))
    ensures var u := StoppedAt(proj, w, AllSteps(w, op), Stop(CommitPoint(op), None));
      var x := CommittedBy(u, oid, commit);
      x.journal == Some(Save(w, op)) && WellSaved(Save(w, op)) && Fragile(x, Save(w, op), [oid])
  {
    hide *;
    var saved := Save(w, op);
    PreparedPlan(proj, w, op);
    ReadyJournal(proj, w);
    SavedWell(w, op);
    BeforeCommit(proj, w, op);
    var u := StoppedAt(proj, w, AllSteps(w, op), Stop(CommitPoint(op), None));
    SaveOrder(w, op);
    HeadCommitted(proj, w);
    CommitIsolation(w, op, p);
    SnapshotAt(w, op, p);
    ForeignTip(w, u, saved, oid, commit);
    HoldsIntended(w, op, u, p);
    FragileMeans(u.files, saved, p);
    FragileFrom(CommittedBy(u, oid, commit), saved, [oid], p);
  }

  lemma HeadCommitted<D>(proj: Tree -> D, w: World<D>)
    requires Ready(proj, w)
    ensures Tip(w, w.head).Some? ==> Tip(w, w.head).value in w.commits
  {
  }

  lemma ForeignTip<D>(w: World<D>, u: World<D>, saved: Saved, oid: Oid, commit: Commit)
    requires u.head == w.head == saved.branch && saved.head == Tip(w, w.head) && u.commits == w.commits
    requires oid !in w.commits && !IsOperation(map[oid := commit], oid, saved)
    requires saved.head.Some? ==> saved.head.value in w.commits
    ensures var x := CommittedBy(u, oid, commit);
      Diagnose(x, saved, [oid]).Foreign? && x.files == u.files && x.journal == u.journal
  {
    var x := CommittedBy(u, oid, commit);
    assert !IsOperation(x.commits, oid, saved);
    assert [oid][1..] == [];
  }

  lemma HoldsIntended<D>(w: World<D>, op: Operation<D>, u: World<D>, p: Path)
    requires u.files == Changed(w.files, Intended(op.renames, op.writes)) && p in Intended(op.renames, op.writes)
    requires p in Save(w, op).before && Save(w, op).before[p] == Get(w.files, p) && p in w.files && |w.files[p]| >= 2
    ensures HoldsAfter(u.files, Save(w, op), p)
    ensures Save(w, op).before[p].Some? && |Save(w, op).before[p].value| >= 2
  {
    hide Intended;
  }

  lemma FragileFrom<D>(x: World<D>, saved: Saved, walk: seq<Oid>, p: Path)
    requires Diagnose(x, saved, walk).Foreign? && FragilePath(x.files, saved, p)
    ensures Fragile(x, saved, walk)
  {
    hide Diagnose, FragilePath;
  }

  // ----- how the search bound comes to lose a commit -----

  /** Commits made on top, oldest first: each has the branch tip as its parent. */
  function OnTop<D>(u: World<D>, more: seq<(Oid, Tree)>): World<D>
    decreases |more|
  {
    if more == [] then u
    else
      var v := OnTop(u, more[..|more| - 1]);
      CommittedBy(v, more[|more| - 1].0, Commit(ParentsOf(Tip(v, v.head)), more[|more| - 1].1))
  }

  /** The walk over them, newest first, down to the operation's commit. */
  function WalkDown(more: seq<(Oid, Tree)>, oid: Oid): (walk: seq<Oid>)
    ensures |walk| == |more| + 1
    decreases |more|
  {
    if more == [] then [oid] else [more[|more| - 1].0] + WalkDown(more[..|more| - 1], oid)
  }

  /** New commits are newer than all before. */
  ghost predicate Rising(commits: map<Oid, Commit>, more: seq<(Oid, Tree)>)
  {
    && (forall i, c :: 0 <= i < |more| && c in commits ==> c < more[i].0)
    && (forall i, j :: 0 <= i < j < |more| ==> more[i].0 < more[j].0)
  }

  /** What a run of commits on top leaves as it is. */
  lemma {:induction false} TopKeeps<D>(u: World<D>, more: seq<(Oid, Tree)>)
    ensures var x := OnTop(u, more); x == u.(commits := x.commits, refs := x.refs)
    ensures more != [] ==> Tip(OnTop(u, more), u.head) == Some(more[|more| - 1].0)
    ensures forall b :: b != u.head ==> Tip(OnTop(u, more), b) == Tip(u, b)
    decreases |more|
  {
    if more != [] { TopKeeps(u, more[..|more| - 1]); }
  }

  /** Reachability below a new commit is as it was. */
  lemma {:induction false} ReachOld(commits: map<Oid, Commit>, c: Oid, commit: Commit, a: Oid, b: Oid, n: nat)
    requires History(commits) && c !in commits && a in commits
    ensures ReachesIn(commits[c := commit], a, b, n) <==> ReachesIn(commits, a, b, n)
    decreases n
  {
    if n > 0 {
      var ps := commits[a].parents;
      forall i | 0 <= i < |ps|
        ensures ReachesIn(commits[c := commit], ps[i], b, n - 1) <==> ReachesIn(commits, ps[i], b, n - 1)
      {
        ReachOld(commits, c, commit, ps[i], b, n - 1);
      }
    }
  }

  lemma ReachesOld(commits: map<Oid, Commit>, c: Oid, commit: Commit, a: Oid, b: Oid)
    requires History(commits) && c !in commits && a in commits
    ensures Reaches(commits[c := commit], a, b) <==> Reaches(commits, a, b)
  {
    hide ReachesIn;
    var next := commits[c := commit];
    if n: nat :| ReachesIn(next, a, b, n) { ReachOld(commits, c, commit, a, b, n); }
    if n: nat :| ReachesIn(commits, a, b, n) { ReachOld(commits, c, commit, a, b, n); }
  }

  /** One commit more at the front of the walk. */
  lemma WalkLonger(commits: map<Oid, Commit>, tip: Oid, head: Option<Oid>, walk: seq<Oid>, c: Oid, tree: Tree)
    requires History(commits) && IsWalk(commits, tip, head, walk) && tip in commits
    requires (head.Some? ==> head.value in commits)
    requires forall e :: e in commits ==> e < c
    ensures var next := commits[c := Commit([tip], tree)];
      History(next) && IsWalk(next, c, head, [c] + walk)
  {
    hide ReachesIn;
    var next := commits[c := Commit([tip], tree)];
    assert c !in commits;
    assert History(next);
    forall e
      ensures e in [c] + walk <==> Reaches(next, c, e) && !(head.Some? && Reaches(next, head.value, e))
    {
      TopReaches(commits, c, tip, tree, e);
      ReachesOld(commits, c, Commit([tip], tree), tip, e);
      if head.Some? {
        ReachesOld(commits, c, Commit([tip], tree), head.value, e);
        NotBelow(commits, head.value, c);
      }
      assert e in [c] + walk <==> e == c || e in walk;
    }
    NotBelow(commits, tip, c);
    assert c !in walk;
    var longer := [c] + walk;
    forall i, j | 0 <= i < j < |longer|
      ensures longer[i] != longer[j]
    {
      assert longer[j] == walk[j - 1] && walk[j - 1] in walk;
    }
  }

  lemma TopReaches(commits: map<Oid, Commit>, c: Oid, tip: Oid, tree: Tree, e: Oid)
    requires c !in commits && tip in commits
    ensures var next := commits[c := Commit([tip], tree)];
      Reaches(next, c, e) <==> e == c || Reaches(next, tip, e)
  {
    var next := commits[c := Commit([tip], tree)];
    assert ReachesIn(next, c, c, 0);
    if n: nat :| ReachesIn(next, c, e, n) {
      if n > 0 { assert ReachesIn(next, next[c].parents[0], e, n - 1); }
    }
    if n: nat :| ReachesIn(next, tip, e, n) {
      assert next[c].parents[0] == tip;
      assert ReachesIn(next, c, e, n + 1);
    }
  }

  /** What is not there is not reached. */
  lemma NotBelow(commits: map<Oid, Commit>, a: Oid, c: Oid)
    requires History(commits) && a in commits && c !in commits
    ensures !Reaches(commits, a, c)
  {
    if n: nat :| ReachesIn(commits, a, c, n) { ReachedStored(commits, a, c, n); }
  }

  lemma {:induction false} ReachedStored(commits: map<Oid, Commit>, a: Oid, c: Oid, n: nat)
    requires ReachesIn(commits, a, c, n)
    ensures c in commits
    decreases n
  {
    if n > 0 {
      var i :| 0 <= i < |commits[a].parents| && ReachesIn(commits, commits[a].parents[i], c, n - 1);
      ReachedStored(commits, commits[a].parents[i], c, n - 1);
    }
  }

  /** Commits on top: the old ones are kept, the new ones are those given, newer than all. */
  lemma {:induction false} TopCommits<D>(u: World<D>, more: seq<(Oid, Tree)>, c: Oid)
    requires Rising(u.commits, more)
    ensures var x := OnTop(u, more);
      && (c in u.commits ==> c in x.commits && x.commits[c] == u.commits[c])
      && (c in x.commits && c !in u.commits ==> exists i :: 0 <= i < |more| && more[i].0 == c)
    decreases |more|
  {
    hide CommittedBy;
    if more != [] {
      var n := |more| - 1;
      TopCommits(u, more[..n], c);
      TopLast(u, more);
      var v := OnTop(u, more[..n]);
      if c in v.commits && c !in u.commits {
        var i :| 0 <= i < |more[..n]| && more[..n][i].0 == c;
        assert more[i].0 == c;
      }
    }
  }

  lemma TopLast<D>(u: World<D>, more: seq<(Oid, Tree)>)
    requires more != []
    ensures var n := |more| - 1;
      var v := OnTop(u, more[..n]);
      OnTop(u, more).commits == v.commits[more[n].0 := Commit(ParentsOf(Tip(v, v.head)), more[n].1)]
  {
  }

  lemma TopNewest<D>(u: World<D>, more: seq<(Oid, Tree)>, c: Oid)
    requires Rising(u.commits, more) && more != [] && c in OnTop(u, more[..|more| - 1]).commits
    ensures c < more[|more| - 1].0
  {
    hide OnTop;
    var n := |more| - 1;
    TopCommits(u, more[..n], c);
    if c !in u.commits {
      var i :| 0 <= i < |more[..n]| && more[..n][i].0 == c;
      assert more[i].0 < more[n].0;
    }
  }

  /** The walk over commits on top of one that is its own walk, and why none of them looks like
      the operation: its parent is not the saved HEAD. */
  lemma {:induction false} TopWalk<D>(u: World<D>, oid: Oid, head: Option<Oid>, more: seq<(Oid, Tree)>)
    requires History(u.commits) && Tip(u, u.head) == Some(oid) && oid in u.commits
    requires IsWalk(u.commits, oid, head, [oid]) && (head.Some? ==> head.value in u.commits && head.value < oid)
    requires Rising(u.commits, more)
    ensures var x := OnTop(u, more);
      && History(x.commits) && Tip(x, u.head).Some? && Tip(x, u.head).value in x.commits && oid <= Tip(x, u.head).value
      && IsWalk(x.commits, Tip(x, u.head).value, head, WalkDown(more, oid))
      && forall i :: 0 <= i < |more| ==>
           WalkDown(more, oid)[i] in x.commits && x.commits[WalkDown(more, oid)[i]].parents != ParentsOf(head)
    decreases |more|
  {
    hide *;
    WalkDownIs(more, oid);
    if more == [] {
      TopNone(u);
    } else {
      var n := |more| - 1;
      var front, last := more[..n], more[n];
      var v, x := OnTop(u, front), OnTop(u, more);
      RisingFront(u.commits, more);
      TopKeeps(u, front);
      TopKeeps(u, more);
      TopWalk(u, oid, head, front);
      TopLast(u, more);
      var tip := Tip(v, u.head).value;
      forall e | e in v.commits
        ensures e < last.0
      {
        TopNewest(u, more, e);
      }
      if head.Some? { TopCommits(u, front, head.value); }
      WalkLonger(v.commits, tip, head, WalkDown(front, oid), last.0, last.1);
      TipParents(tip, head);
    }
  }

  lemma TopNone<D>(u: World<D>)
    ensures OnTop(u, []) == u
  {
  }

  lemma WalkDownIs(more: seq<(Oid, Tree)>, oid: Oid)
    ensures WalkDown(more, oid) ==
      if more == [] then [oid] else [more[|more| - 1].0] + WalkDown(more[..|more| - 1], oid)
  {
  }

  lemma RisingFront(commits: map<Oid, Commit>, more: seq<(Oid, Tree)>)
    requires Rising(commits, more) && more != []
    ensures Rising(commits, more[..|more| - 1])
  {
  }

  lemma TipParents(tip: Oid, head: Option<Oid>)
    ensures ParentsOf(Some(tip)) == [tip]
    ensures head != Some(tip) ==> [tip] != ParentsOf(head)
  {
    if head.Some? { assert ParentsOf(head)[0] == head.value && [tip][0] == tip; }
  }

  /** The bound loses a commit: an operation lands, its process dies before the journal goes, and
      then 10,000 or more commits are made on its branch. The next recovery puts the committed
      files back, although the commit is on the branch. */
  lemma BoundLoses<D>(proj: Tree -> D, w: World<D>, op: Operation<D>, more: seq<(Oid, Tree)>, p: Path)
    requires Ready(proj, w) && Prepared(proj, w, op) && DistinctPaths(op.paths)
    requires p in Intended(op.renames, op.writes) && |more| >= SEARCH_LIMIT && Rising(Done(w, op).commits, more)
    ensures StopsIn(Stop(CommitPoint(op) + 1, None), AllSteps(w, op)) && WellSaved(Save(w, op))
    ensures var u := StoppedAt(proj, w, AllSteps(w, op), Stop(CommitPoint(op) + 1, None));
      var x, walk := OnTop(u, more), WalkDown(more, op.oid);
      && x.journal == Some(Save(w, op)) && Tip(x, w.head).Some?
      && IsWalk(x.commits, Tip(x, w.head).value, Tip(w, w.head), walk)
      && Reaches(x.commits, Tip(x, w.head).value, op.oid) && op.oid in x.commits
      && Get(x.commits[op.oid].tree, p) == Intended(op.renames, op.writes)[p]
      && Get(Settle(proj, x, walk).files, p) == Get(w.files, p)
  {
    hide *;
    var saved, at := Save(w, op), Stop(CommitPoint(op) + 1, None);
    PreparedPlan(proj, w, op);
    ReadyJournal(proj, w);
    SavedWell(w, op);
    SaveOrder(w, op);
    AllLonger(w, op);
    var u := StoppedAt(proj, w, AllSteps(w, op), at);
    OperationStops(proj, w, op, at);
    CommitPointBound(op);
    LandedFacts(w, op, u);
    LandedFields(w, op, u);
    DoneHistory(proj, w, op);
    HeadCommitted(proj, w);
    CommitIsolation(w, op, p);
    LandedTip(w, u, op.oid);
    OwnWalk(u.commits, op.oid, Tip(w, w.head));
    TopWalk(u, op.oid, Tip(w, w.head), more);
    TopKeeps(u, more);
    TopCommits(u, more, op.oid);
    var x, walk := OnTop(u, more), WalkDown(more, op.oid);
    LastOfWalk(more, op.oid);
    InWalk(x.commits, Tip(x, w.head).value, Tip(w, w.head), walk, op.oid);
    NotFound(x.commits, saved, walk, |more|);
    SnapshotAt(w, op, p);
    HoldsChange(w, op, x, p);
    BoundDecides(proj, x, walk, saved, p);
  }

  lemma AllLonger<D>(w: World<D>, op: Operation<D>)
    ensures StopsIn(Stop(CommitPoint(op) + 1, None), AllSteps(w, op))
  {
    hide WorkSteps, Save;
  }

  lemma LandedTip<D>(w: World<D>, u: World<D>, oid: Oid)
    requires u.refs == w.refs[w.head := oid] && u.head == w.head
    ensures Tip(u, u.head) == Some(oid)
  {
  }

  /** The operation's commit is its own walk. */
  lemma OwnWalk(commits: map<Oid, Commit>, oid: Oid, head: Option<Oid>)
    requires History(commits) && oid in commits && commits[oid].parents == ParentsOf(head)
    requires head.Some? ==> head.value in commits && head.value < oid
    ensures IsWalk(commits, oid, head, [oid])
  {
    assert ReachesIn(commits, oid, oid, 0);
    forall c
      ensures c in [oid] <==> Reaches(commits, oid, c) && !(head.Some? && Reaches(commits, head.value, c))
    {
      if n: nat :| ReachesIn(commits, oid, c, n) { AboveHead(commits, oid, head, c, n); }
      if head.Some? && Reaches(commits, head.value, oid) {
        var n: nat :| ReachesIn(commits, head.value, oid, n);
        AncestorsAreOlder(commits, head.value, oid, n);
      }
    }
  }

  lemma {:induction false} LastOfWalk(more: seq<(Oid, Tree)>, oid: Oid)
    ensures WalkDown(more, oid)[|more|] == oid
    decreases |more|
  {
    if more != [] { LastOfWalk(more[..|more| - 1], oid); }
  }

  lemma InWalk(commits: map<Oid, Commit>, tip: Oid, head: Option<Oid>, walk: seq<Oid>, c: Oid)
    requires IsWalk(commits, tip, head, walk) && c in walk
    ensures Reaches(commits, tip, c)
  {
    hide Reaches;
  }

  lemma NotFound(commits: map<Oid, Commit>, saved: Saved, walk: seq<Oid>, n: nat)
    requires SEARCH_LIMIT <= n <= |walk|
    requires forall i :: 0 <= i < n ==> walk[i] in commits && commits[walk[i]].parents != ParentsOf(saved.head)
    ensures !exists i :: 0 <= i < |walk| && i < SEARCH_LIMIT && IsOperation(commits, walk[i], saved)
  {
  }

  lemma HoldsChange<D>(w: World<D>, op: Operation<D>, x: World<D>, p: Path)
    requires x.files == Changed(w.files, Intended(op.renames, op.writes)) && p in Intended(op.renames, op.writes)
    ensures HoldsAfter(x.files, Save(w, op), p) && Save(w, op).after == Intended(op.renames, op.writes)
  {
    hide Intended;
  }

  // ----- caught failures -----

  /** The branch is reset only when its tip is provably the operation's own commit. */
  function UndoBranch<D>(u: World<D>, saved: Saved): seq<Prim<D>>
  {
    if OwnTip(u, saved)
    then [if saved.head.Some? then SetBranch(saved.branch, saved.head.value) else DropBranch(saved.branch)]
    else []
  }

  function UndoFiles<D>(saved: Saved): seq<Prim<D>>
    requires WellSaved(saved)
  {
    RestoreSteps(saved.order, saved.before) + [RestoreIndex(saved.index)]
  }

  /** `CardMutation::rollback`. */
  function RollBackSteps<D>(u: World<D>, saved: Saved): seq<Prim<D>>
    requires WellSaved(saved)
  {
    UndoBranch(u, saved) + (UndoFiles(saved) + [RemoveJournal])
  }

  /** Whatever the state of the repository, rollback leaves a branch alone unless its tip is
      the operation's own commit, and no other branch is ever touched. */
  lemma RollbackRefs<D>(proj: Tree -> D, u: World<D>, saved: Saved)
    requires WellSaved(saved)
    ensures var v := Run(proj, u, RollBackSteps(u, saved));
      && v.commits == u.commits && (forall b :: b != saved.branch ==> Tip(v, b) == Tip(u, b))
      && (v.refs == u.refs || OwnTip(u, saved))
  {
    hide *;
    var v := Run(proj, u, UndoBranch(u, saved));
    RollBackIs(proj, u, saved);
    UndoFilesIs(proj, v, saved);
    UndoBranchRefs(proj, u, saved);
    TipsAre(v, Run(proj, v, UndoFiles(saved) + [RemoveJournal]));
  }

  /** The branch has moved to a commit that is recognisably the operation's. */
  predicate OwnTip<D>(u: World<D>, saved: Saved)
  {
    var tip := Tip(u, saved.branch);
    tip.Some? && tip != saved.head && IsOperation(u.commits, tip.value, saved)
  }

  lemma UndoBranchRefs<D>(proj: Tree -> D, u: World<D>, saved: Saved)
    ensures var v := Run(proj, u, UndoBranch(u, saved));
      && v.commits == u.commits && (v.refs == u.refs || OwnTip(u, saved))
      && forall b :: b != saved.branch ==> Tip(v, b) == Tip(u, b)
  {
    hide IsOperation;
    if UndoBranch(u, saved) != [] { RunOne(proj, u, UndoBranch(u, saved)[0]); }
  }

  lemma TipsAre<D>(u: World<D>, v: World<D>)
    requires v.refs == u.refs
    ensures forall b :: Tip(v, b) == Tip(u, b)
  {
  }

  lemma UndoFilesIs<D>(proj: Tree -> D, u: World<D>, saved: Saved)
    requires WellSaved(saved)
    ensures Run(proj, u, UndoFiles(saved) + [RemoveJournal]) ==
      u.(files := Changed(u.files, Only(saved.before, saved.order)), index := saved.index, journal := None)
  {
    hide Changed, Only, Run;
    var restores: seq<Prim<D>> := RestoreSteps(saved.order, saved.before);
    var u1 := Run(proj, u, restores);
    RunRestores(proj, u, saved.order, saved.before);
    assert UndoFiles(saved) + [RemoveJournal] == restores + [RestoreIndex(saved.index), RemoveJournal];
    RunConcat(proj, u, restores, [RestoreIndex(saved.index), RemoveJournal]);
    RunPair(proj, u1, RestoreIndex(saved.index), RemoveJournal);
  }

  /** Putting the files and the index back undoes everything that was underway. */
  lemma UnderwayUndone<D>(proj: Tree -> D, w: World<D>, op: Operation<D>, u: World<D>)
    requires w.journal.None? && Underway(w, Save(w, op), u) && WellSaved(Save(w, op))
    ensures Undone(w, Run(proj, u, UndoFiles(Save(w, op)) + [RemoveJournal]))
  {
    var saved := Save(w, op);
    hide WellSaved, Changed, Only, Save, Run;
    SaveOrder(w, op);
    UndoFilesIs(proj, u, saved);
    var files := Changed(u.files, Only(saved.before, saved.order));
    forall p
      ensures Get(files, p) == Get(w.files, p)
    {
      if p in saved.order { SnapshotAt(w, op, p); }
    }
    SameMap(files, w.files);
  }

  /** Nothing committed yet: rollback has no branch to reset. */
  lemma UnderwayBranch<D>(w: World<D>, op: Operation<D>, u: World<D>)
    requires Underway(w, Save(w, op), u)
    ensures UndoBranch(u, Save(w, op)) == []
  {
  }

  /** Committed: rollback resets the branch to exactly where it was. */
  lemma LandedBranch<D>(proj: Tree -> D, w: World<D>, op: Operation<D>, u: World<D>)
    requires Ready(proj, w) && Prepared(proj, w, op) && LandedWorld(w, op, u) && u.db == w.db
    ensures |UndoBranch(u, Save(w, op))| == 1
    ensures var v := Eff(proj, u, UndoBranch(u, Save(w, op))[0]);
      Underway(w, Save(w, op), v) && v.journal == Some(Save(w, op))
    ensures forall n: nat :: Tear(u, UndoBranch(u, Save(w, op))[0], n) == u
  {
    hide *;
    var saved := Save(w, op);
    PreparedPlan(proj, w, op);
    SaveOrder(w, op);
    DoneHistory(proj, w, op);
    LandedFields(w, op, u);
    OperationRecognised(w, op, u);
    UndoBranchIs(w, u, saved, op.oid);
    ResetRefs(w, op.oid);
    UndoBranchEff(proj, u, saved);
    forall p | p !in saved.order
      ensures Get(u.files, p) == Get(w.files, p)
    {
      OutsideKept(w, op, p);
    }
    NewOid(proj, w, op);
    UnderwayFrom(w, saved, Eff(proj, u, UndoBranch(u, saved)[0]));
  }

  lemma LandedFields<D>(w: World<D>, op: Operation<D>, u: World<D>)
    requires LandedWorld(w, op, u)
    ensures u == w.(files := u.files, index := u.index, commits := u.commits, refs := u.refs,
                    journal := Some(Save(w, op)),
                    scratch := u.scratch, db := u.db)
    ensures u.files == Changed(w.files, Intended(op.renames, op.writes)) && u.refs == w.refs[w.head := op.oid]
    ensures u.commits == w.commits[op.oid := Commit(ParentsOf(Tip(w, w.head)), CommitTree(w, op))]
  {
    hide Changed, Intended, CommitTree, Save, Overlay;
  }

  lemma UndoBranchIs<D>(w: World<D>, u: World<D>, saved: Saved, oid: Oid)
    requires saved.head == Tip(w, w.head) && saved.branch == w.head && u.refs == w.refs[w.head := oid]
    requires IsOperation(u.commits, oid, saved) && (saved.head.Some? ==> saved.head.value < oid)
    ensures OwnTip(u, saved)
  {
    hide IsOperation;
  }

  lemma UndoBranchEff<D>(proj: Tree -> D, u: World<D>, saved: Saved)
    requires OwnTip(u, saved)
    ensures |UndoBranch(u, saved)| == 1
    ensures Eff(proj, u, UndoBranch(u, saved)[0]) ==
      u.(refs := if saved.head.Some? then u.refs[saved.branch := saved.head.value] else u.refs - {saved.branch})
    ensures forall n: nat :: Tear(u, UndoBranch(u, saved)[0], n) == u
  {
    hide OwnTip;
  }

  lemma UnderwayFrom<D>(w: World<D>, saved: Saved, v: World<D>)
    requires v == w.(files := v.files, index := v.index, commits := v.commits, scratch := v.scratch,
                     journal := v.journal)
    requires forall c :: c in w.commits ==> c in v.commits && v.commits[c] == w.commits[c]
    requires forall p :: p !in saved.order ==> Get(v.files, p) == Get(w.files, p)
    ensures Underway(w, saved, v)
  {
  }

  lemma NewOid<D>(proj: Tree -> D, w: World<D>, op: Operation<D>)
    requires Prepared(proj, w, op)
    ensures op.oid !in w.commits
  {
  }

  /** Moving a ref and moving it back. */
  lemma ResetRefs<D>(w: World<D>, oid: Oid)
    ensures Tip(w, w.head).Some? ==> w.refs[w.head := oid][w.head := Tip(w, w.head).value] == w.refs
    ensures Tip(w, w.head).None? ==> w.refs[w.head := oid] - {w.head} == w.refs
  {
  }

  lemma OutsideKept<D>(w: World<D>, op: Operation<D>, p: Path)
    requires Planned(w.files, op) && p !in op.paths
    ensures Get(Changed(w.files, Intended(op.renames, op.writes)), p) == Get(w.files, p)
  {
    CommitIsolation(w, op, p);
  }

  /** Where the try block can throw. */
  lemma TryStops<D>(proj: Tree -> D, w: World<D>, op: Operation<D>, at: Stop)
    requires Ready(proj, w) && Planned(w.files, op) && StopsIn(at, TrySteps(w, op)) && at.done < |TrySteps(w, op)|
    ensures var u := StoppedAt(proj, w, TrySteps(w, op), at);
      if at.done <= CommitPoint(op) then Underway(w, Save(w, op), u) && (at.done < 2 <==> u.journal.None?)
        && (at.done < 2 ==> u == w.(scratch := u.scratch)) && (at.done >= 2 ==> u.journal == Some(Save(w, op)))
      else LandedWorld(w, op, u) && u.db == w.db
  {
    hide Save, Eff, Tear, Run, WorkSteps, LandedWorld, Changed, TrySteps, LandSteps;
    StopSplit(proj, w, TrySteps(w, op), [RemoveJournal], at);
    TryLength(w, op);
    OperationStops(proj, w, op, at);
  }

  lemma TryLength<D>(w: World<D>, op: Operation<D>)
    ensures |TrySteps(w, op)| == CommitPoint(op) + 4
  {
    hide WorkSteps, Save;
  }

  /** Caught-failure rollback: an exception at any step of the try block, a failing SQL commit
      included, leaves files, index, branch and database as they were before the call. */
  lemma CaughtFailureUndone<D>(proj: Tree -> D, w: World<D>, op: Operation<D>, at: Stop)
    requires Ready(proj, w) && Prepared(proj, w, op) && DistinctPaths(op.paths)
    requires StopsIn(at, TrySteps(w, op)) && at.done < |TrySteps(w, op)|
    ensures WellSaved(Save(w, op))
    ensures var u := StoppedAt(proj, w, TrySteps(w, op), at);
      Undone(w, Run(proj, u, RollBackSteps(u, Save(w, op))))
  {
    hide *;
    PreparedPlan(proj, w, op);
    ReadyJournal(proj, w);
    SavedWell(w, op);
    var u := StoppedAt(proj, w, TrySteps(w, op), at);
    TryStops(proj, w, op, at);
    RollBackIs(proj, u, Save(w, op));
    if at.done <= CommitPoint(op) {
      UnderwayBranch(w, op, u);
      RunNone(proj, u);
      UnderwayUndone(proj, w, op, u);
    } else {
      LandedBranch(proj, w, op, u);
      var s := UndoBranch(u, Save(w, op))[0];
      assert UndoBranch(u, Save(w, op)) == [s];
      RunOne(proj, u, s);
      UnderwayUndone(proj, w, op, Eff(proj, u, s));
    }
  }

  lemma ReadyJournal<D>(proj: Tree -> D, w: World<D>)
    requires Ready(proj, w)
    ensures w.journal.None? && !w.index.TornIndex?
  {
  }

  lemma RollBackIs<D>(proj: Tree -> D, u: World<D>, saved: Saved)
    requires WellSaved(saved)
    ensures RollBackSteps(u, saved) == UndoBranch(u, saved) + (UndoFiles(saved) + [RemoveJournal])
    ensures Run(proj, u, RollBackSteps(u, saved)) ==
      Run(proj, Run(proj, u, UndoBranch(u, saved)), UndoFiles(saved) + [RemoveJournal])
  {
    hide UndoBranch, UndoFiles, WellSaved;
    RunConcat(proj, u, UndoBranch(u, saved), UndoFiles(saved) + [RemoveJournal]);
  }

  // ----- a crash during the rollback -----

  /** A rollback that is itself interrupted, and what the next use of the project makes of it. */
  ghost function SettledDoubleFault<D>(proj: Tree -> D, w: World<D>, op: Operation<D>, at: Stop, again: Stop,
                                       walk: seq<Oid>)
    : Option<World<D>>
    requires WellSaved(Save(w, op)) && StopsIn(at, TrySteps(w, op))
    requires StopsIn(again, RollBackSteps(StoppedAt(proj, w, TrySteps(w, op), at), Save(w, op)))
  {
    var u := StoppedAt(proj, w, TrySteps(w, op), at);
    var v := StoppedAt(proj, u, RollBackSteps(u, Save(w, op)), again);
    if v.journal.Some? && !WellSaved(v.journal.value) then None else Some(Settle(proj, v, walk))
  }

  lemma UndoFilesLocal<D>(saved: Saved, s: Prim<D>)
    requires WellSaved(saved) && s in UndoFiles<D>(saved)
    ensures Local(s, saved.order)
  {
    var restores: seq<Prim<D>> := RestoreSteps(saved.order, saved.before);
    if s in restores {
      var i :| 0 <= i < |restores| && restores[i] == s;
      assert saved.order[i] in saved.order;
    }
  }

  /** From an underway state with its journal, a rollback stopped anywhere still settles, if the
      index file opens. */
  lemma InterruptedUndo<D>(proj: Tree -> D, w: World<D>, op: Operation<D>, u: World<D>, again: Stop, walk: seq<Oid>)
    requires Ready(proj, w) && Underway(w, Save(w, op), u) && u.journal == Some(Save(w, op)) && WellSaved(Save(w, op))
    requires StopsIn(again, UndoFiles<D>(Save(w, op)) + [RemoveJournal])
    ensures var v := StoppedAt(proj, u, UndoFiles(Save(w, op)) + [RemoveJournal], again);
      && (v.journal.Some? ==> v.journal == Some(Save(w, op)))
      && if v.journal.Some? && v.index.TornIndex? then StuckWith(v, Save(w, op), walk)
         else Undone(w, Settle(proj, v, walk))
  {
    hide *;
    var saved := Save(w, op);
    var steps: seq<Prim<D>> := UndoFiles(saved);
    ReadyJournal(proj, w);
    StopsBound(again, steps + [RemoveJournal]);
    if again.done <= |steps| {
      var early := StopBeforeEnd(proj, u, steps, again);
      forall s | s in steps
        ensures Local(s, saved.order)
      {
        UndoFilesLocal(saved, s);
      }
      LocalStop(proj, w, saved, u, steps, early);
      UnderwaySettles(proj, w, op, StoppedAt(proj, u, steps, early), walk);
      StuckWithIs(StoppedAt(proj, u, steps, early), saved, walk);
    } else {
      StopEnd(proj, u, steps + [RemoveJournal], again);
      UnderwayUndone(proj, w, op, u);
      UndoneSettles(proj, w, Run(proj, u, steps + [RemoveJournal]), walk);
    }
  }

  /** The index file when a rollback stops: restored, torn, or still what it was. */
  lemma RollBackIndex<D>(proj: Tree -> D, u: World<D>, saved: Saved, again: Stop)
    requires WellSaved(saved) && StopsIn(again, RollBackSteps(u, saved))
    ensures var steps := RollBackSteps(u, saved);
      var v := StoppedAt(proj, u, steps, again);
      && 2 <= |steps|
      && v.index == (if again.done + 2 > |steps| then saved.index
                     else if TearsIndex(again, steps) then TornIndex
                     else u.index)
      && (again.done == |steps| ==> v.journal.None?) && (again.done < |steps| ==> v.journal == u.journal)
  {
    hide *;
    SavedOrder(saved);
    var front: seq<Prim<D>> := UndoBranch(u, saved) + RestoreSteps(saved.order, saved.before);
    RollBackFront(u, saved);
    StopSplit(proj, u, front, TailSteps(saved), again);
    StopsBound(again, front + TailSteps(saved));
    FrontKeeps(proj, u, saved, again);
    if again.done >= |front| {
      TailStops(proj, Run(proj, u, front), saved, Stop(again.done - |front|, again.torn));
    }
    forall s | s in front
      ensures !s.RestoreIndex?
    {
      FrontStep(u, saved, s);
    }
    TearInTail(front, saved, again);
  }

  function TailSteps<D>(saved: Saved): (r: seq<Prim<D>>)
    ensures |r| == 2
  {
    [RestoreIndex(saved.index), RemoveJournal]
  }

  lemma SavedOrder(saved: Saved)
    requires WellSaved(saved)
    ensures (forall p :: p in saved.order ==> p in saved.before) && !saved.index.TornIndex?
  {
  }

  lemma RollBackFront<D>(u: World<D>, saved: Saved)
    requires WellSaved(saved)
    ensures RollBackSteps(u, saved) ==
      UndoBranch(u, saved) + RestoreSteps(saved.order, saved.before) + TailSteps(saved)
  {
    hide UndoBranch, RestoreSteps;
  }

  /** Branch and files come first, and touch neither index nor journal. */
  lemma FrontKeeps<D>(proj: Tree -> D, u: World<D>, saved: Saved, again: Stop)
    requires WellSaved(saved)
    ensures var front := UndoBranch(u, saved) + RestoreSteps(saved.order, saved.before);
      && Run(proj, u, front).index == u.index && Run(proj, u, front).journal == u.journal
      && (again.done < |front| && StopsIn(again, front) ==>
           StoppedAt(proj, u, front, again).index == u.index && StoppedAt(proj, u, front, again).journal == u.journal)
  {
    hide Run, UndoBranch, RestoreSteps, WellSaved, Tear;
    SavedOrder(saved);
    var front := UndoBranch(u, saved) + RestoreSteps(saved.order, saved.before);
    forall s | s in front
      ensures s.SetBranch? || s.DropBranch? || s.WriteFile? || s.RemoveFile?
    {
      FrontStep(u, saved, s);
    }
    IndexKept(proj, u, front);
    if again.done < |front| {
      assert forall s :: s in front[..again.done] ==> s in front;
      IndexKept(proj, u, front[..again.done]);
      assert front[again.done] in front;
      if again.torn.Some? { TearKeepsIndex(Run(proj, u, front[..again.done]), front[again.done], again.torn.value); }
    }
  }

  lemma TearKeepsIndex<D>(u: World<D>, s: Prim<D>, n: nat)
    requires !s.RestoreIndex?
    ensures Tear(u, s, n).index == u.index && Tear(u, s, n).journal == u.journal
  {
  }

  lemma FrontStep<D>(u: World<D>, saved: Saved, s: Prim<D>)
    requires WellSaved(saved) && s in UndoBranch(u, saved) + RestoreSteps(saved.order, saved.before)
    ensures s.SetBranch? || s.DropBranch? || s.WriteFile? || s.RemoveFile?
  {
    var restores: seq<Prim<D>> := RestoreSteps(saved.order, saved.before);
    if s in restores {
      var i :| 0 <= i < |restores| && restores[i] == s;
    }
  }

  lemma {:induction false} IndexKept<D>(proj: Tree -> D, u: World<D>, steps: seq<Prim<D>>)
    requires forall s :: s in steps ==> s.SetBranch? || s.DropBranch? || s.WriteFile? || s.RemoveFile?
    ensures Run(proj, u, steps).index == u.index && Run(proj, u, steps).journal == u.journal
    decreases |steps|
  {
    if steps != [] {
      assert steps[0] in steps;
      IndexKept(proj, Eff(proj, u, steps[0]), steps[1..]);
    }
  }

  lemma TailStops<D>(proj: Tree -> D, u: World<D>, saved: Saved, at: Stop)
    requires StopsIn(at, TailSteps<D>(saved))
    ensures var v := StoppedAt(proj, u, TailSteps(saved), at);
      && v.index == (if at.done > 0 then saved.index
                     else if at.torn.Some? && !saved.index.NoIndex? then TornIndex else u.index)
      && v.journal == if at.done == 2 then None else u.journal
  {
    hide Run;
    var steps: seq<Prim<D>> := [RestoreIndex(saved.index), RemoveJournal];
    if at.done == 0 {
      StopSmall(proj, u, steps, at.torn);
    } else if at.done == 1 {
      assert steps[..1] == [RestoreIndex(saved.index)];
      RunOne(proj, u, RestoreIndex(saved.index));
    } else {
      assert steps[..2] == steps;
      RunPair(proj, u, RestoreIndex(saved.index), RemoveJournal);
    }
  }

  lemma TearInTail<D>(front: seq<Prim<D>>, saved: Saved, at: Stop)
    requires StopsIn(at, front + TailSteps(saved))
    requires forall s :: s in front ==> !s.RestoreIndex?
    ensures TearsIndex(at, front + TailSteps(saved)) <==>
      at.torn.Some? && at.done == |front| && !saved.index.NoIndex?
  {
    var steps := front + TailSteps(saved);
    assert at.done < |front| ==> steps[at.done] in front;
  }

  lemma StopEnd<D>(proj: Tree -> D, w: World<D>, steps: seq<Prim<D>>, at: Stop)
    requires StopsIn(at, steps) && at.done >= |steps|
    ensures StoppedAt(proj, w, steps, at) == Run(proj, w, steps)
  {
    assert steps[..at.done] == steps;
  }

  lemma UndoneSettles<D>(proj: Tree -> D, w: World<D>, u: World<D>, walk: seq<Oid>)
    requires w.journal.None? && Undone(w, u)
    ensures u.journal.None? && Undone(w, Settle(proj, u, walk))
  {
  }

  /** The two faults leave a torn index file: the rollback is stopped inside the write of it, or
      the exception came from inside the write of it and the rollback has not written it yet. */
  ghost predicate FaultsTear<D>(proj: Tree -> D, w: World<D>, op: Operation<D>, at: Stop, again: Stop)
    requires WellSaved(Save(w, op)) && StopsIn(at, TrySteps(w, op))
  {
    var back := RollBackSteps(StoppedAt(proj, w, TrySteps(w, op), at), Save(w, op));
    TearsIndex(again, back) || (TearsIndex(at, TrySteps(w, op)) && again.done + 2 <= |back|)
  }

  /** Once the journal is published, an exception followed by a crash anywhere in the rollback
      is still all or nothing, unless the two leave a torn index file: then nothing settles. */
  lemma DoubleFault<D>(proj: Tree -> D, w: World<D>, op: Operation<D>, at: Stop, again: Stop, walk: seq<Oid>)
    requires Ready(proj, w) && Prepared(proj, w, op) && DistinctPaths(op.paths) && WellSaved(Save(w, op))
    requires StopsIn(at, TrySteps(w, op)) && 2 <= at.done < |TrySteps(w, op)|
    requires StopsIn(again, RollBackSteps(StoppedAt(proj, w, TrySteps(w, op), at), Save(w, op)))
    requires IsWalk(Done(w, op).commits, op.oid, Tip(w, w.head), walk)
    ensures var u := StoppedAt(proj, w, TrySteps(w, op), at);
      var v := StoppedAt(proj, u, RollBackSteps(u, Save(w, op)), again);
      && (v.journal.Some? ==> WellSaved(v.journal.value))
      && if FaultsTear(proj, w, op, at, again) then StuckWith(v, Save(w, op), walk)
         else Undone(w, Settle(proj, v, walk)) || DoneAs(w, op, Settle(proj, v, walk))
  {
    hide *;
    var saved := Save(w, op);
    PreparedPlan(proj, w, op);
    ReadyJournal(proj, w);
    var u := StoppedAt(proj, w, TrySteps(w, op), at);
    var v := StoppedAt(proj, u, RollBackSteps(u, saved), again);
    TryStops(proj, w, op, at);
    AllWhole(w, op);
    TornExactly(proj, w, TrySteps(w, op), at);
    RollBackIndex(proj, u, saved, again);
    StopsBound(again, RollBackSteps(u, saved));
    SavedOrder(saved);
    StopsLength(again, RollBackSteps(u, saved));
    FaultsTearIs(proj, w, op, at, again);
    TornFault(proj, w, op, at, again);
    RollBackIs(proj, u, saved);
    var rest: seq<Prim<D>> := UndoFiles(saved) + [RemoveJournal];
    StopSplit(proj, u, UndoBranch(u, saved), rest, again);
    if at.done <= CommitPoint(op) {
      UnderwayBranch(w, op, u);
      RunNone(proj, u);
      InterruptedUndo(proj, w, op, u, Stop(again.done, again.torn), walk);
    } else {
      LandedFacts(w, op, u);
      LandedBranch(proj, w, op, u);
      var s := UndoBranch(u, saved)[0];
      assert UndoBranch(u, saved) == [s];
      RunOne(proj, u, s);
      if again.done == 0 {
        StopSmall(proj, u, [s], again.torn);
        LandedSettles(proj, w, op, u, walk);
        StuckWithIs(u, saved, walk);
      } else {
        InterruptedUndo(proj, w, op, Eff(proj, u, s), Stop(again.done - 1, again.torn), walk);
      }
    }
  }

  lemma FaultsTearIs<D>(proj: Tree -> D, w: World<D>, op: Operation<D>, at: Stop, again: Stop)
    requires WellSaved(Save(w, op)) && StopsIn(at, TrySteps(w, op))
    ensures FaultsTear(proj, w, op, at, again) <==>
      var back := RollBackSteps(StoppedAt(proj, w, TrySteps(w, op), at), Save(w, op));
      TearsIndex(again, back) || (TearsIndex(at, TrySteps(w, op)) && again.done + 2 <= |back|)
  {
    hide TearsIndex, RollBackSteps, StoppedAt, TrySteps, WellSaved, Save;
  }

  /** The faults tear the index exactly when journal and torn index file are left together. */
  lemma TornFault<D>(proj: Tree -> D, w: World<D>, op: Operation<D>, at: Stop, again: Stop)
    requires Ready(proj, w) && Planned(w.files, op) && WellSaved(Save(w, op))
    requires StopsIn(at, TrySteps(w, op)) && 2 <= at.done < |TrySteps(w, op)|
    requires StopsIn(again, RollBackSteps(StoppedAt(proj, w, TrySteps(w, op), at), Save(w, op)))
    ensures var u := StoppedAt(proj, w, TrySteps(w, op), at);
      var v := StoppedAt(proj, u, RollBackSteps(u, Save(w, op)), again);
      FaultsTear(proj, w, op, at, again) <==> v.journal.Some? && v.index.TornIndex?
  {
    hide *;
    var saved := Save(w, op);
    ReadyJournal(proj, w);
    var u := StoppedAt(proj, w, TrySteps(w, op), at);
    TryStops(proj, w, op, at);
    if at.done > CommitPoint(op) { LandedFacts(w, op, u); }
    AllWhole(w, op);
    TornExactly(proj, w, TrySteps(w, op), at);
    RollBackIndex(proj, u, saved, again);
    TearPlace(proj, u, saved, again);
    SavedOrder(saved);
    FaultsTearIs(proj, w, op, at, again);
  }

  lemma TearPlace<D>(proj: Tree -> D, u: World<D>, saved: Saved, again: Stop)
    requires WellSaved(saved) && StopsIn(again, RollBackSteps(u, saved))
    ensures TearsIndex(again, RollBackSteps(u, saved)) ==> again.done + 2 == |RollBackSteps(u, saved)|
    ensures again.done <= |RollBackSteps(u, saved)|
  {
    hide *;
    SavedOrder(saved);
    var front: seq<Prim<D>> := UndoBranch(u, saved) + RestoreSteps(saved.order, saved.before);
    RollBackFront(u, saved);
    StopsBound(again, RollBackSteps(u, saved));
    forall s | s in front
      ensures !s.RestoreIndex?
    {
      FrontStep(u, saved, s);
    }
    TearInTail(front, saved, again);
  }

  lemma DoubleFaultIs<D>(proj: Tree -> D, w: World<D>, op: Operation<D>, at: Stop, again: Stop, walk: seq<Oid>)
    requires WellSaved(Save(w, op)) && StopsIn(at, TrySteps(w, op))
    requires StopsIn(again, RollBackSteps(StoppedAt(proj, w, TrySteps(w, op), at), Save(w, op)))
    ensures var u := StoppedAt(proj, w, TrySteps(w, op), at);
      var v := StoppedAt(proj, u, RollBackSteps(u, Save(w, op)), again);
      SettledDoubleFault(proj, w, op, at, again, walk) ==
        if v.journal.Some? && !WellSaved(v.journal.value) then None else Some(Settle(proj, v, walk))
  {
    hide Settle, WellSaved, StoppedAt, RollBackSteps, TrySteps;
  }

  // ----- an exception before the journal is published -----

  /** Rewriting the original bytes cannot leave a torn file or index behind. */
  ghost predicate Untearable(saved: Saved)
    requires WellSaved(saved)
  {
    && saved.index.NoIndex?
    && forall p :: p in saved.order ==> saved.before[p] == None || saved.before[p] == Some("")
  }

  /** Rewriting original bytes over themselves changes nothing, unless the write tears. */
  lemma RestoreIsNoChange<D>(proj: Tree -> D, w: World<D>, op: Operation<D>, u: World<D>, s: Prim<D>, n: nat)
    requires WellSaved(Save(w, op)) && u == w.(scratch := u.scratch) && w.journal.None?
    requires s in UndoFiles<D>(Save(w, op)) + [RemoveJournal]
    ensures Eff(proj, u, s) == u
    ensures Untearable(Save(w, op)) ==> Tear(u, s, n) == u
  {
    var saved := Save(w, op);
    SaveOrder(w, op);
    var restores: seq<Prim<D>> := RestoreSteps(saved.order, saved.before);
    assert UndoFiles<D>(saved) == restores + [RestoreIndex(saved.index)];
    if s in restores {
      var i :| 0 <= i < |restores| && restores[i] == s;
      assert saved.order[i] in saved.order;
      RestoreOwn(proj, w, op, u, saved.order[i], n);
    }
  }

  lemma RestoreOwn<D>(proj: Tree -> D, w: World<D>, op: Operation<D>, u: World<D>, p: Path, n: nat)
    requires WellSaved(Save(w, op)) && u.files == w.files && p in Save(w, op).order
    ensures var s: Prim<D> := RestoreStep(p, Save(w, op).before[p]);
      Eff(proj, u, s) == u && (Untearable(Save(w, op)) ==> Tear(u, s, n) == u)
  {
    hide Intended;
    var before := Save(w, op).before[p];
    assert before == Get(u.files, p);
    if p in u.files { assert u.files[p := u.files[p]] == u.files; } else { assert u.files - {p} == u.files; }
    assert Untearable(Save(w, op)) && before.Some? ==> Prefix(before.value, n) == before.value;
  }

  lemma {:induction false} NoChangeRun<D>(proj: Tree -> D, u: World<D>, steps: seq<Prim<D>>)
    requires forall s :: s in steps ==> Eff(proj, u, s) == u
    ensures Run(proj, u, steps) == u
    decreases |steps|
  {
    hide Eff;
    if steps != [] {
      assert steps[0] in steps;
      NoChangeRun(proj, u, steps[1..]);
    }
  }

  /** The rollback of an operation whose journal was never published, stopped somewhere: there
      is no journal, so nothing repairs what it leaves. */
  lemma UnpublishedStop<D>(proj: Tree -> D, w: World<D>, op: Operation<D>, u: World<D>, again: Stop)
    requires WellSaved(Save(w, op)) && u == w.(scratch := u.scratch) && w.journal.None?
    requires StopsIn(again, UndoFiles<D>(Save(w, op)) + [RemoveJournal])
    ensures var steps: seq<Prim<D>> := UndoFiles(Save(w, op)) + [RemoveJournal];
      StoppedAt(proj, u, steps, again) == if again.torn.Some? then Tear(u, steps[again.done], again.torn.value) else u
  {
    hide Save, Run, UndoFiles, WellSaved, Eff, Tear;
    var steps: seq<Prim<D>> := UndoFiles(Save(w, op)) + [RemoveJournal];
    forall s | s in steps[..again.done]
      ensures Eff(proj, u, s) == u
    {
      assert s in steps;
      RestoreIsNoChange(proj, w, op, u, s, 0);
    }
    NoChangeRun(proj, u, steps[..again.done]);
  }

  ghost predicate SurvivesUnpublished<D>(proj: Tree -> D, w: World<D>, op: Operation<D>, at: Stop, again: Stop,
                                         walk: seq<Oid>)
    requires WellSaved(Save(w, op)) && StopsIn(at, TrySteps(w, op))
    requires StopsIn(again, RollBackSteps(StoppedAt(proj, w, TrySteps(w, op), at), Save(w, op)))
  {
    var r := SettledDoubleFault(proj, w, op, at, again, walk);
    r.Some? && Undone(w, r.value)
  }

  /** The rollback of an unpublished operation, spelled out. */
  lemma UnpublishedRollback<D>(proj: Tree -> D, w: World<D>, op: Operation<D>, at: Stop)
    requires Ready(proj, w) && Planned(w.files, op) && WellSaved(Save(w, op))
    requires StopsIn(at, TrySteps(w, op)) && at.done < 2
    ensures var u := StoppedAt(proj, w, TrySteps(w, op), at);
      && u == w.(scratch := u.scratch) && w.journal.None? && !w.index.TornIndex?
      && RollBackSteps(u, Save(w, op)) == UndoFiles(Save(w, op)) + [RemoveJournal]
  {
    hide Run, Save, WorkSteps, LandSteps, Underway, WellSaved, StoppedAt, TrySteps;
    TryLength(w, op);
    TryStops(proj, w, op, at);
    var u := StoppedAt(proj, w, TrySteps(w, op), at);
    UnderwayBranch(w, op, u);
  }

  /** What one interrupted rollback of an unpublished operation comes to. */
  lemma UnpublishedSettles<D>(proj: Tree -> D, w: World<D>, op: Operation<D>, at: Stop, again: Stop, walk: seq<Oid>)
    requires Ready(proj, w) && Planned(w.files, op) && WellSaved(Save(w, op))
    requires StopsIn(at, TrySteps(w, op)) && at.done < 2
    requires StopsIn(again, RollBackSteps(StoppedAt(proj, w, TrySteps(w, op), at), Save(w, op)))
    ensures var u := StoppedAt(proj, w, TrySteps(w, op), at);
      var steps: seq<Prim<D>> := UndoFiles(Save(w, op)) + [RemoveJournal];
      && StopsIn(again, steps)
      && SettledDoubleFault(proj, w, op, at, again, walk) ==
           Some(if again.torn.Some? then Tear(u, steps[again.done], again.torn.value) else u)
  {
    hide *;
    UnpublishedRollback(proj, w, op, at);
    var u := StoppedAt(proj, w, TrySteps(w, op), at);
    UnpublishedStop(proj, w, op, u, again);
    DoubleFaultIs(proj, w, op, at, again, walk);
    var steps: seq<Prim<D>> := UndoFiles(Save(w, op)) + [RemoveJournal];
    StopsStep(again, steps);
    if again.torn.Some? { TearKeepsJournal(u, steps[again.done], again.torn.value); }
    NoJournalSettles(proj, StoppedAt(proj, u, steps, again), walk);
  }

  lemma StopsStep<D>(at: Stop, steps: seq<Prim<D>>)
    requires StopsIn(at, steps)
    ensures at.torn.Some? ==> at.done < |steps|
  {
  }

  lemma TearKeepsJournal<D>(u: World<D>, s: Prim<D>, n: nat)
    ensures Tear(u, s, n).journal == u.journal
  {
  }

  lemma NoJournalSettles<D>(proj: Tree -> D, u: World<D>, walk: seq<Oid>)
    requires u.journal.None?
    ensures Settle(proj, u, walk) == u
  {
  }

  /** An exception before the journal is published makes rollback rewrite files nothing has
      touched. A crash in that rewrite is survived exactly when no write of it can tear. */
  lemma UnpublishedExact<D>(proj: Tree -> D, w: World<D>, op: Operation<D>, at: Stop, walk: seq<Oid>)
    requires Ready(proj, w) && Planned(w.files, op) && WellSaved(Save(w, op))
    requires StopsIn(at, TrySteps(w, op)) && at.done < 2
    ensures Untearable(Save(w, op)) <==>
      forall again :: StopsIn(again, RollBackSteps(StoppedAt(proj, w, TrySteps(w, op), at), Save(w, op))) ==>
        SurvivesUnpublished(proj, w, op, at, again, walk)
  {
    hide *;
    var saved := Save(w, op);
    var u := StoppedAt(proj, w, TrySteps(w, op), at);
    UnpublishedRollback(proj, w, op, at);
    if Untearable(saved) {
      forall again | StopsIn(again, RollBackSteps(u, saved))
        ensures SurvivesUnpublished(proj, w, op, at, again, walk)
      {
        UnpublishedSettles(proj, w, op, at, again, walk);
        UntearableSurvives(proj, w, op, u, again);
        SurvivesIs(proj, w, op, at, again, walk);
      }
    } else {
      var again := TearingStop(w, op, u);
      UnpublishedSettles(proj, w, op, at, again, walk);
      SurvivesIs(proj, w, op, at, again, walk);
    }
  }

  lemma SurvivesIs<D>(proj: Tree -> D, w: World<D>, op: Operation<D>, at: Stop, again: Stop, walk: seq<Oid>)
    requires WellSaved(Save(w, op)) && StopsIn(at, TrySteps(w, op))
    requires StopsIn(again, RollBackSteps(StoppedAt(proj, w, TrySteps(w, op), at), Save(w, op)))
    ensures SurvivesUnpublished(proj, w, op, at, again, walk) ==
      var r := SettledDoubleFault(proj, w, op, at, again, walk); r.Some? && Undone(w, r.value)
  {
    hide SettledDoubleFault, Undone;
  }

  lemma UntearableSurvives<D>(proj: Tree -> D, w: World<D>, op: Operation<D>, u: World<D>, again: Stop)
    requires WellSaved(Save(w, op)) && Untearable(Save(w, op)) && u == w.(scratch := u.scratch) && w.journal.None?
    requires StopsIn(again, UndoFiles<D>(Save(w, op)) + [RemoveJournal])
    ensures var steps: seq<Prim<D>> := UndoFiles(Save(w, op)) + [RemoveJournal];
      Undone(w, if again.torn.Some? then Tear(u, steps[again.done], again.torn.value) else u)
  {
    hide Save, Untearable, UndoFiles, WellSaved, Eff, Tear;
    var steps: seq<Prim<D>> := UndoFiles(Save(w, op)) + [RemoveJournal];
    if again.torn.Some? {
      assert steps[again.done] in steps;
      RestoreIsNoChange(proj, w, op, u, steps[again.done], again.torn.value);
    }
  }

  /** The write that can tear, torn at its first byte. */
  lemma TearingStop<D>(w: World<D>, op: Operation<D>, u: World<D>) returns (again: Stop)
    requires WellSaved(Save(w, op)) && !Untearable(Save(w, op)) && !w.index.TornIndex? && u == w.(scratch := u.scratch)
    ensures var steps: seq<Prim<D>> := UndoFiles(Save(w, op)) + [RemoveJournal];
      StopsIn(again, steps) && again.torn.Some? && !Undone(w, Tear(u, steps[again.done], again.torn.value))
  {
    hide *;
    var saved := Save(w, op);
    SaveOrder(w, op);
    if w.index == NoIndex {
      var k := TearableFile(saved);
      var p := saved.order[k];
      again := Stop(k, Some(0));
      UndoStep<D>(saved, k);
      StopsInside(again, UndoFiles<D>(saved) + [RemoveJournal]);
      SnapshotAt(w, op, p);
      TornFileShows(w, u, p, saved.before[p]);
    } else {
      again := Stop(|saved.order|, Some(0));
      UndoStep<D>(saved, |saved.order|);
      StopsInside(again, UndoFiles<D>(saved) + [RemoveJournal]);
      TornIndexShows(w, u);
    }
  }

  lemma StopsInside<D>(at: Stop, steps: seq<Prim<D>>)
    requires at.done < |steps|
    ensures StopsIn(at, steps)
  {
  }

  lemma TearableFile(saved: Saved) returns (k: nat)
    requires WellSaved(saved) && !Untearable(saved) && saved.index == NoIndex
    ensures k < |saved.order| && saved.order[k] in saved.before
    ensures var b := saved.before[saved.order[k]]; b.Some? && b.value != ""
  {
    var p :| p in saved.order && saved.before[p] != None && saved.before[p] != Some("");
    k :| 0 <= k < |saved.order| && saved.order[k] == p;
  }

  lemma TornFileShows<D>(w: World<D>, u: World<D>, p: Path, bytes: Option<Bytes>)
    requires Get(w.files, p) == bytes && bytes.Some? && bytes.value != ""
    ensures !Undone(w, Tear(u, RestoreStep(p, bytes), 0))
  {
    assert Tear(u, RestoreStep(p, bytes), 0).files[p] == "";
  }

  lemma TornIndexShows<D>(w: World<D>, u: World<D>)
    requires w.index.Index?
    ensures !Undone(w, Tear(u, RestoreIndex(w.index), 0))
  {
  }

  lemma UndoStep<D>(saved: Saved, k: nat)
    requires WellSaved(saved) && k <= |saved.order|
    ensures var steps: seq<Prim<D>> := UndoFiles(saved) + [RemoveJournal];
      && |steps| == |saved.order| + 2
      && steps[k] == if k < |saved.order| then RestoreStep(saved.order[k], saved.before[saved.order[k]])
                     else RestoreIndex(saved.index)
  {
    var restores: seq<Prim<D>> := RestoreSteps(saved.order, saved.before);
    assert UndoFiles<D>(saved) + [RemoveJournal] == restores + [RestoreIndex(saved.index), RemoveJournal];
  }

  lemma SnapshotAt<D>(w: World<D>, op: Operation<D>, p: Path)
    requires p in Save(w, op).order
    ensures p in Save(w, op).before && Save(w, op).before[p] == Get(w.files, p)
  {
    hide Intended;
  }
}

/** The repository as `CardMutation` and `apply_card_changes` change it, one fallible step at a
    time, and as `recover_journal` settles it. */
module Disk {
  import opened Common
  import opened Journal
  import opened Recovery
  import opened Atomicity
  import opened Mutation

  // ----- runs that may be cut short -----

  /** `steps` were carried out from `w` with `fuse` steps to go before a failure: all of them,
      or as many as the fuse allowed and part of the next. */
  ghost predicate Ran<D>(proj: Tree -> D, w: World<D>, steps: seq<Prim<D>>, fuse: nat, torn: Option<nat>,
                         ok: bool, u: World<D>, left: nat)
  {
    ok == (|steps| <= fuse) &&
    if ok then u == Run(proj, w, steps) && left == fuse - |steps|
    else u == StoppedAt(proj, w, steps, Stop(fuse, torn))
  }

  lemma RanNothing<D>(proj: Tree -> D, w: World<D>, fuse: nat, torn: Option<nat>)
    ensures Ran(proj, w, [], fuse, torn, true, w, fuse)
  {
  }

  lemma RanOne<D>(proj: Tree -> D, w: World<D>, s: Prim<D>, fuse: nat, torn: Option<nat>, u: World<D>, left: nat)
    requires fuse > 0 ==> u == Eff(proj, w, s) && left == fuse - 1
    requires fuse == 0 ==> u == if torn.Some? then Tear(w, s, torn.value) else w
    ensures Ran(proj, w, [s], fuse, torn, fuse > 0, u, left)
  {
    hide Eff, Tear;
    RunOne(proj, w, s);
    if fuse == 0 { StopSmall(proj, w, [s], torn); }
  }

  lemma RanThen<D>(proj: Tree -> D, w: World<D>, s: seq<Prim<D>>, t: seq<Prim<D>>, fuse: nat, torn: Option<nat>,
                   u: World<D>, left: nat, ok: bool, v: World<D>, rest: nat)
    requires Ran(proj, w, s, fuse, torn, true, u, left) && Ran(proj, u, t, left, torn, ok, v, rest)
    ensures Ran(proj, w, s + t, fuse, torn, ok, v, rest)
  {
    hide Run, Tear, StoppedAt;
    RunConcat(proj, w, s, t);
    if !ok { StopSplit(proj, w, s, t, Stop(fuse, torn)); }
  }

  lemma RanShort<D>(proj: Tree -> D, w: World<D>, s: seq<Prim<D>>, t: seq<Prim<D>>, fuse: nat, torn: Option<nat>,
                    u: World<D>, left: nat)
    requires Ran(proj, w, s, fuse, torn, false, u, left)
    ensures Ran(proj, w, s + t, fuse, torn, false, u, left)
  {
    hide Run, Tear, StoppedAt;
    StopSplit(proj, w, s, t, Stop(fuse, torn));
  }

  /** One part and then, if it went well, the next. */
  lemma RanBoth<D>(proj: Tree -> D, w: World<D>, s: seq<Prim<D>>, t: seq<Prim<D>>, fuse: nat, torn: Option<nat>,
                   first: bool, u: World<D>, left: nat, ok: bool, v: World<D>, rest: nat)
    requires Ran(proj, w, s, fuse, torn, first, u, left)
    requires if first then Ran(proj, u, t, left, torn, ok, v, rest) else !ok && v == u && rest == left
    ensures Ran(proj, w, s + t, fuse, torn, ok, v, rest)
  {
    hide Ran;
    if first {
      RanThen(proj, w, s, t, fuse, torn, u, left, ok, v, rest);
    } else {
      RanShort(proj, w, s, t, fuse, torn, u, left);
    }
  }

  lemma RanAll<D>(proj: Tree -> D, w: World<D>, steps: seq<Prim<D>>, fuse: nat, torn: Option<nat>, ok: bool,
                  u: World<D>, left: nat)
    requires Ran(proj, w, steps, fuse, torn, ok, u, left)
    ensures ok ==> |steps| <= fuse && u == Run(proj, w, steps)
    ensures !ok ==>
      fuse < |steps| && StopsIn(Stop(fuse, torn), steps) && u == StoppedAt(proj, w, steps, Stop(fuse, torn))
  {
  }

  lemma {:induction false} RenamesSnoc<D>(renames: seq<(Path, Path)>, r: (Path, Path))
    ensures RenameSteps<D>(renames + [r]) == RenameSteps(renames) + [RenameFile(r.0, r.1), Unstage(r.0)]
    decreases |renames|
  {
    if renames == [] {
      assert (renames + [r])[1..] == [];
    } else {
      assert (renames + [r])[1..] == renames[1..] + [r];
      RenamesSnoc<D>(renames[1..], r);
    }
  }

  lemma {:induction false} WritesSnoc<D>(writes: seq<(Path, Bytes)>, r: (Path, Bytes))
    ensures WriteSteps<D>(writes + [r]) == WriteSteps(writes) + [WriteFile(r.0, r.1), Stage(r.0)]
    decreases |writes|
  {
    if writes == [] {
      assert (writes + [r])[1..] == [];
    } else {
      assert (writes + [r])[1..] == writes[1..] + [r];
      WritesSnoc<D>(writes[1..], r);
    }
  }

  lemma {:induction false} RevertSnoc(files: Tree, saved: Saved, order: seq<Path>, p: Path)
    ensures RevertPaths(files, saved, order + [p]) ==
      RevertPaths(files, saved, order) + if HoldsAfter(files, saved, p) then [p] else []
    decreases |order|
  {
    hide HoldsAfter;
    if order == [] {
      assert (order + [p])[1..] == [];
    } else {
      assert (order + [p])[1..] == order[1..] + [p];
      RevertSnoc(files, saved, order[1..], p);
    }
  }

  // ----- loops of the source over values -----

  /** `is_operation_commit`. */
  method CheckOperation(commits: map<Oid, Commit>, c: Oid, saved: Saved) returns (r: bool)
    requires WellSaved(saved)
    ensures r == IsOperation(commits, c, saved)
  {
    if c !in commits || commits[c].parents != ParentsOf(saved.head) { return false; }
    for k := 0 to |saved.order|
      invariant forall i :: 0 <= i < k && saved.order[i] in saved.after ==>
        Get(commits[c].tree, saved.order[i]) == saved.after[saved.order[i]]
    {
      var p := saved.order[k];
      if p in saved.after && Get(commits[c].tree, p) != saved.after[p] { return false; }
    }
    forall p | p in saved.after
      ensures Get(commits[c].tree, p) == saved.after[p]
    {
      assert p in saved.order;
    }
    return true;
  }

  /** `landed_commit`: at most 10,000 commits of the walk are looked at. */
  method FindLanded(commits: map<Oid, Commit>, saved: Saved, walk: seq<Oid>) returns (r: Option<Oid>)
    requires WellSaved(saved)
    ensures r == LandedIn(commits, saved, walk, SEARCH_LIMIT)
  {
    hide IsOperation, WellSaved;
    var remaining: nat, k := SEARCH_LIMIT, 0;
    while remaining > 0 && k < |walk|
      invariant k <= |walk|
      invariant LandedIn(commits, saved, walk[k..], remaining) == LandedIn(commits, saved, walk, SEARCH_LIMIT)
      decreases remaining
    {
      var own := CheckOperation(commits, walk[k], saved);
      if own { return Some(walk[k]); }
      k, remaining := k + 1, remaining - 1;
    }
    return None;
  }

  /** The entry loop of `restore_unrelated_index` and `preserve_unrelated_index`. */
  method OverlayEntries(base: Tree, tree: Tree, paths: seq<Path>) returns (r: Tree)
    ensures r == Overlay(base, tree, paths)
  {
    r := base;
    for k := 0 to |paths|
      invariant forall p :: Get(r, p) == if p in paths[..k] then Get(tree, p) else Get(base, p)
    {
      var p := paths[k];
      assert paths[..k + 1] == paths[..k] + [p];
      if p in tree { r := r[p := tree[p]]; } else { r := r - {p}; }
    }
    assert paths[..|paths|] == paths;
    SameMap(r, Overlay(base, tree, paths));
  }

  datatype Outcome = Applied | RolledBack | Abandoned | Refused

  class Repository<D> {
    const proj: Tree -> D

    var files: Tree
    var index: IndexFile
    var commits: map<Oid, Commit>
    var refs: map<Ref, Oid>
    var head: Ref
    var journal: Option<Saved>
    var scratch: Scratch
    var db: D

    /** How many more steps succeed, and how much of a file the failing one writes. */
    var fuse: nat
    var torn: Option<nat>

    constructor (proj: Tree -> D, w: World<D>, fuse: nat, torn: Option<nat>)
      ensures this.proj == proj && State() == w && this.fuse == fuse && this.torn == torn
    {
      this.proj := proj;
      files, index, commits, refs := w.files, w.index, w.commits, w.refs;
      head, journal, scratch, db := w.head, w.journal, w.scratch, w.db;
      this.fuse, this.torn := fuse, torn;
    }

    function State(): World<D>
      reads this
    {
      World(files, index, commits, refs, head, journal, scratch, db)
    }

    ghost predicate Result(w: World<D>, steps: seq<Prim<D>>, fuse0: nat, ok: bool)
      reads this
    {
      Ran(proj, w, steps, fuse0, torn, ok, State(), fuse)
    }

    /** One durable step, or the failure of it. */
    method Perform(s: Prim<D>) returns (ok: bool)
      modifies this
      ensures torn == old(torn) && Result(old(State()), [s], old(fuse), ok)
    {
      ok := fuse > 0;
      if ok { Carry(s); fuse := fuse - 1; } else if torn.Some? { Spoil(s, torn.value); }
      RanOne(proj, old(State()), s, old(fuse), torn, State(), fuse);
    }

    method Carry(s: Prim<D>)
      modifies this
      ensures State() == Eff(proj, old(State()), s) && fuse == old(fuse) && torn == old(torn)
    {
      if s.RenameFile? || s.WriteFile? || s.RemoveFile? {
        CarryFile(s);
      } else if s.ResetIndex? || s.Unstage? || s.Stage? || s.RestoreIndex? || s.OverlayIndex? {
        CarryIndex(s);
      } else {
        CarryRecord(s);
      }
    }

    method CarryRecord(s: Prim<D>)
      requires !(s.RenameFile? || s.WriteFile? || s.RemoveFile?)
      requires !(s.ResetIndex? || s.Unstage? || s.Stage? || s.RestoreIndex? || s.OverlayIndex?)
      modifies this`commits, this`refs, this`journal, this`scratch, this`db
      ensures State() == Eff(proj, old(State()), s)
    {
      match s
      case WriteScratch => scratch := WholeScratch;
      case PublishJournal(saved) => journal, scratch := Some(saved), NoScratch;
      case RemoveJournal => journal := None;
      case MakeCommit(oid) =>
        commits := commits[oid := Commit(ParentsOf(Tip(State(), head)), Entries(index))];
        refs := refs[head := oid];
      case SetBranch(b, oid) => refs := refs[b := oid];
      case DropBranch(b) => refs := refs - {b};
      case CommitSql(rows) => db := rows;
      case RebuildSql => db := proj(files);
    }

    method CarryFile(s: Prim<D>)
      requires s.RenameFile? || s.WriteFile? || s.RemoveFile?
      modifies this`files
      ensures State() == Eff(proj, old(State()), s)
    {
      match s
      case RenameFile(from, to) => if from in files { files := (files - {from})[to := files[from]]; }
      case WriteFile(p, bytes) => files := files[p := bytes];
      case RemoveFile(p) => files := files - {p};
    }

    method CarryIndex(s: Prim<D>)
      requires s.ResetIndex? || s.Unstage? || s.Stage? || s.RestoreIndex? || s.OverlayIndex?
      modifies this`index
      ensures State() == Eff(proj, old(State()), s)
    {
      match s
      case ResetIndex => index := Index(HeadTree(State()));
      case Unstage(p) => index := Index(Entries(index) - {p});
      case Stage(p) => if p in files { index := Index(Entries(index)[p := files[p]]); }
      case RestoreIndex(f) => index := f;
      case OverlayIndex(tree, paths) =>
        var entries := OverlayEntries(Entries(index), tree, paths);
        index := Index(entries);
    }

    method Spoil(s: Prim<D>, written: nat)
      modifies this
      ensures State() == Tear(old(State()), s, written) && fuse == old(fuse) && torn == old(torn)
    {
      match s
      case WriteScratch => scratch := PartialScratch;
      case WriteFile(p, bytes) => files := files[p := Prefix(bytes, written)];
      case RestoreIndex(f) => if !f.NoIndex? { index := TornIndex; }
      case _ =>
    }

    /** `steps` were done from `w`; do one more. */
    method Next(ghost w: World<D>, ghost done: seq<Prim<D>>, ghost fuse0: nat, s: Prim<D>) returns (ok: bool)
      requires Result(w, done, fuse0, true)
      modifies this
      ensures torn == old(torn) && Result(w, done + [s], fuse0, ok)
    {
      ghost var u, left := State(), fuse;
      ok := Perform(s);
      RanThen(proj, w, done, [s], fuse0, torn, u, left, ok, State(), fuse);
    }

    /** `restore_original_files`. */
    method RestoreOriginalFiles(saved: Saved) returns (ok: bool)
      requires WellSaved(saved)
      modifies this
      ensures torn == old(torn) && Result(old(State()), RestoreSteps(saved.order, saved.before), old(fuse), ok)
    {
      ok := RestorePaths(saved, saved.order);
    }

    method RestorePaths(saved: Saved, paths: seq<Path>) returns (ok: bool)
      requires forall p :: p in paths ==> p in saved.before
      modifies this
      ensures torn == old(torn) && Result(old(State()), RestoreSteps(paths, saved.before), old(fuse), ok)
    {
      hide Ran;
      ghost var w, fuse0 := State(), fuse;
      ghost var steps: seq<Prim<D>> := RestoreSteps(paths, saved.before);
      RanNothing(proj, w, fuse0, torn);
      ok := true;
      for k := 0 to |paths|
        invariant ok && torn == old(torn) && Result(w, steps[..k], fuse0, true)
      {
        ok := Next(w, steps[..k], fuse0, RestoreStep(paths[k], saved.before[paths[k]]));
        assert steps[..k + 1] == steps[..k] + [steps[k]];
        if !ok {
          RanShort(proj, w, steps[..k + 1], steps[k + 1..], fuse0, torn, State(), fuse);
          assert steps == steps[..k + 1] + steps[k + 1..];
          return;
        }
      }
      assert steps[..|paths|] == steps;
    }

    /** The last loop of `recover_journal`: only files that still hold the operation's bytes
        are put back. The test is made file by file, as the loop goes. */
    method RevertOwnFiles(saved: Saved) returns (ok: bool)
      requires WellSaved(saved)
      modifies this
      ensures torn == old(torn) && Result(old(State()), RevertSteps(old(files), saved, |saved.order|), old(fuse), ok)
    {
      hide Ran, RevertSteps, WellSaved, HoldsAfter, Run, RestoreStep;
      ghost var w, fuse0 := State(), fuse;
      RanNothing(proj, w, fuse0, torn);
      NoReverts<D>(w.files, saved);
      ok := true;
      for k := 0 to |saved.order|
        invariant ok && torn == old(torn) && Result(w, RevertSteps(w.files, saved, k), fuse0, true)
      {
        ok := RevertOne(saved, k, w, fuse0);
        if !ok {
          ghost var rest := RevertRest<D>(w.files, saved, k + 1);
          RanShort(proj, w, RevertSteps(w.files, saved, k + 1), rest, fuse0, torn, State(), fuse);
          return;
        }
      }
    }

    method RevertOne(saved: Saved, k: nat, ghost w: World<D>, ghost fuse0: nat) returns (ok: bool)
      requires WellSaved(saved) && k < |saved.order| && Result(w, RevertSteps(w.files, saved, k), fuse0, true)
      modifies this
      ensures torn == old(torn) && Result(w, RevertSteps(w.files, saved, k + 1), fuse0, ok)
    {
      hide Ran, RevertSteps, WellSaved, HoldsAfter, Run, RestoreStep;
      var p := saved.order[k];
      RanAll(proj, w, RevertSteps(w.files, saved, k), fuse0, torn, true, State(), fuse);
      NotYet(proj, w, saved, k);
      RevertNext<D>(w.files, saved, k);
      ok := true;
      if HoldsAfter(files, saved, p) {
        ok := Next(w, RevertSteps(w.files, saved, k), fuse0, RestoreStep(p, saved.before[p]));
      }
    }

    /** `recover_journal`. Opening the index file throws if it is torn. */
    method RecoverFiles(saved: Saved, walk: seq<Oid>) returns (ran: bool, readable: bool)
      requires WellSaved(saved)
      modifies this
      ensures torn == old(torn) && Result(old(State()), FileSteps(old(State()), saved, walk), old(fuse), ran)
      ensures ran ==> readable == !Stuck(old(State()), saved, walk)
      ensures ran ==> State().journal == old(journal)
    {
      hide Ran, RevertPaths, WellSaved, LandedIn, RevertSteps, Run;
      ghost var w, fuse0 := State(), fuse;
      OrderSaved(saved);
      readable := true;
      var tip := Tip(State(), saved.branch);
      if tip == saved.head {
        ran, readable := RestoreAll(saved);
        ghost var restores: seq<Prim<D>> := RestoreSteps(saved.order, saved.before);
        assert restores + [] == restores;
      } else {
        var landed := None;
        if tip.Some? { landed := FindLanded(commits, saved, walk); }
        if landed.Some? {
          RanNothing(proj, w, fuse0, torn);
          ran := true;
          if Tip(State(), head) == landed {
            readable := !index.TornIndex?;
            if readable { ran := RestoreUnrelatedIndex(saved, commits[landed.value].tree); }
          }
        } else {
          ran := RevertOwnFiles(saved);
          AllReverts<D>(w.files, saved);
        }
      }
      if ran { FilesKeepJournal(proj, w, saved, walk, fuse0, torn, State(), fuse); }
    }

    /** The case in which nothing was committed: files back, then the index. */
    method RestoreAll(saved: Saved) returns (ran: bool, readable: bool)
      requires WellSaved(saved)
      modifies this
      ensures torn == old(torn) && (ran ==> readable == !old(index).TornIndex?)
      ensures Result(old(State()), if old(index).TornIndex? then RestoreSteps(saved.order, saved.before)
                                   else RestoreSteps(saved.order,
                                                     saved.before) + [RestoreIndex(saved.index)], old(fuse), ran)
    {
      hide Ran, WellSaved, RestoreSteps, Run;
      ghost var w, fuse0 := State(), fuse;
      OrderSaved(saved);
      ghost var restores: seq<Prim<D>> := RestoreSteps(saved.order, saved.before);
      ran := RestoreOriginalFiles(saved);
      readable := true;
      ghost var first, u, left := ran, State(), fuse;
      if ran {
        RanAll(proj, w, restores, fuse0, torn, true, u, left);
        RunRestores(proj, w, saved.order, saved.before);
        readable := !index.TornIndex?;
        if readable { ran := Perform(RestoreIndex(saved.index)); }
      }
      if !w.index.TornIndex? { Both(w, restores, [RestoreIndex(saved.index)], fuse0, first, u, left, ran); }
    }

    /** `restore_unrelated_index`, and `preserve_unrelated_index` with the committed entries. */
    method RestoreUnrelatedIndex(saved: Saved, tree: Tree) returns (ok: bool)
      modifies this
      ensures torn == old(torn)
      ensures Result(old(State()), [RestoreIndex(saved.index), OverlayIndex(tree, saved.order)], old(fuse), ok)
    {
      hide Ran;
      ghost var w, fuse0 := State(), fuse;
      ok := Perform(RestoreIndex(saved.index));
      ghost var first, u, left := ok, State(), fuse;
      if ok { ok := Perform(OverlayIndex(tree, saved.order)); }
      RanBoth(proj, w, [RestoreIndex(saved.index)], [OverlayIndex(tree, saved.order)], fuse0, torn, first, u, left, ok,
              State(), fuse);
      ghost var steps: seq<Prim<D>> := [RestoreIndex(saved.index), OverlayIndex(tree, saved.order)];
      assert steps == [steps[0]] + [steps[1]];
    }

    /** `CardMutation::begin`. */
    method Begin(saved: Saved) returns (ok: bool)
      modifies this
      ensures torn == old(torn) && Result(old(State()), BeginSteps(saved) + [ResetIndex], old(fuse), ok)
    {
      hide Ran;
      ghost var w, fuse0 := State(), fuse;
      ok := Perform(WriteScratch);
      ghost var first, u, left := ok, State(), fuse;
      if ok { ok := Perform(PublishJournal(saved)); }
      RanBoth(proj, w, [WriteScratch], [PublishJournal(saved)], fuse0, torn, first, u, left, ok, State(), fuse);
      assert BeginSteps<D>(saved) == [WriteScratch] + [PublishJournal(saved)];
      first, u, left := ok, State(), fuse;
      if ok { ok := Perform(ResetIndex); }
      RanBoth(proj, w, BeginSteps(saved), [ResetIndex], fuse0, torn, first, u, left, ok, State(), fuse);
    }

    method RenameFiles(renames: seq<(Path, Path)>) returns (ok: bool)
      modifies this
      ensures torn == old(torn) && Result(old(State()), RenameSteps(renames), old(fuse), ok)
    {
      hide Ran, RenameSteps;
      ghost var w, fuse0 := State(), fuse;
      RanNothing(proj, w, fuse0, torn);
      NoSteps<D>();
      ok := true;
      for k := 0 to |renames|
        invariant ok && torn == old(torn) && Result(w, RenameSteps(renames[..k]), fuse0, true)
      {
        var r := renames[k];
        assert renames[..k + 1] == renames[..k] + [r];
        RenamesSnoc<D>(renames[..k], r);
        ok := NextPair(w, RenameSteps(renames[..k]), fuse0, RenameFile(r.0, r.1), Unstage(r.0));
        if !ok {
          RenamesSplit<D>(renames, k + 1);
          RanShort(proj, w, RenameSteps(renames[..k + 1]), RenameSteps(renames[k + 1..]), fuse0, torn, State(), fuse);
          return;
        }
      }
      assert renames[..|renames|] == renames;
    }

    method WriteFiles(writes: seq<(Path, Bytes)>) returns (ok: bool)
      modifies this
      ensures torn == old(torn) && Result(old(State()), WriteSteps(writes), old(fuse), ok)
    {
      hide Ran, WriteSteps;
      ghost var w, fuse0 := State(), fuse;
      RanNothing(proj, w, fuse0, torn);
      NoSteps<D>();
      ok := true;
      for k := 0 to |writes|
        invariant ok && torn == old(torn) && Result(w, WriteSteps(writes[..k]), fuse0, true)
      {
        var r := writes[k];
        assert writes[..k + 1] == writes[..k] + [r];
        WritesSnoc<D>(writes[..k], r);
        ok := NextPair(w, WriteSteps(writes[..k]), fuse0, WriteFile(r.0, r.1), Stage(r.0));
        if !ok {
          WritesSplit<D>(writes, k + 1);
          RanShort(proj, w, WriteSteps(writes[..k + 1]), WriteSteps(writes[k + 1..]), fuse0, torn, State(), fuse);
          return;
        }
      }
      assert writes[..|writes|] == writes;
    }

    method NextPair(ghost w: World<D>, ghost done: seq<Prim<D>>, ghost fuse0: nat, s: Prim<D>, t: Prim<D>)
      returns (ok: bool)
      requires Result(w, done, fuse0, true)
      modifies this
      ensures torn == old(torn) && Result(w, done + [s, t], fuse0, ok)
    {
      hide Ran;
      ok := Next(w, done, fuse0, s);
      ghost var first, u, left := ok, State(), fuse;
      if ok { ok := Perform(t); }
      RanBoth(proj, w, done + [s], [t], fuse0, torn, first, u, left, ok, State(), fuse);
      assert done + [s, t] == done + [s] + [t];
    }

    /** The try block of `apply_card_changes`. */
    method TryApply(op: Operation<D>) returns (ok: bool)
      requires Planned(files, op)
      modifies this
      ensures torn == old(torn) && Result(old(State()), TrySteps(old(State()), op), old(fuse), ok)
    {
      hide Ran, BeginSteps, RenameSteps, WriteSteps, WorkSteps, Save, CommitTree;
      hide TrySteps, LandSteps, Run, Planned, Entries;
      ghost var w, fuse0 := State(), fuse;
      var saved := Save(State(), op);
      ok := Begin(saved);
      ghost var first, u, left := ok, State(), fuse;
      if ok { ok := RenameFiles(op.renames); }
      Both(w, BeginSteps(saved) + [ResetIndex], RenameSteps(op.renames), fuse0, first, u, left, ok);
      first, u, left := ok, State(), fuse;
      if ok { ok := WriteFiles(op.writes); }
      Both(w, BeginSteps(saved) + [ResetIndex] + RenameSteps(op.renames), WriteSteps(op.writes), fuse0, first, u, left,
           ok);
      first, u, left := ok, State(), fuse;
      if ok { ok := Perform(MakeCommit(op.oid)); }
      TryStepsAre(w, op);
      Both(w, BeginSteps(saved) + WorkSteps(op), [MakeCommit(op.oid)], fuse0, first, u, left, ok);
      first, u, left := ok, State(), fuse;
      if ok {
        ResultAll(w, BeginSteps(saved) + WorkSteps(op) + [MakeCommit(op.oid)], fuse0, true);
        StagedIsCommitted(proj, w, op);
        StateFields();
        SaveOrder(w, op);
        ok := RestoreUnrelatedIndex(saved, Entries(index));
        ghost var kept, v, rest := ok, State(), fuse;
        if ok { ok := Perform(CommitSql(op.rows)); }
        Both(u, [RestoreIndex(w.index), OverlayIndex(CommitTree(w, op), op.paths)], [CommitSql(op.rows)], left, kept, v,
             rest, ok);
      }
      Both(w, BeginSteps(saved) + WorkSteps(op) + [MakeCommit(op.oid)], LandSteps(w, op), fuse0, first, u, left, ok);
    }

    lemma Both(w: World<D>, s: seq<Prim<D>>, t: seq<Prim<D>>, fuse0: nat, first: bool, u: World<D>, left: nat, ok: bool)
      requires Ran(proj, w, s, fuse0, torn, first, u, left)
      requires if first then Result(u, t, left, ok) else !ok && State() == u && fuse == left
      ensures Result(w, s + t, fuse0, ok) && Ran(proj, w, s + t, fuse0, torn, ok, State(), fuse)
    {
      hide Ran;
      RanBoth(proj, w, s, t, fuse0, torn, first, u, left, ok, State(), fuse);
    }

    lemma ResultAll(w: World<D>, steps: seq<Prim<D>>, fuse0: nat, ok: bool)
      requires Ran(proj, w, steps, fuse0, torn, ok, State(), fuse)
      ensures ok ==> State() == Run(proj, w, steps)
    {
    }

    lemma StateFields()
      ensures State().index == index && State().files == files
    {
    }

    /** `CardMutation::rollback`. */
    method RollBack(saved: Saved) returns (ok: bool)
      requires WellSaved(saved)
      modifies this
      ensures torn == old(torn) && Result(old(State()), RollBackSteps(old(State()), saved), old(fuse), ok)
    {
      hide Ran, WellSaved, IsOperation;
      ghost var w, fuse0 := State(), fuse;
      OrderSaved(saved);
      var tip, own := Tip(State(), saved.branch), false;
      if tip.Some? && tip != saved.head { own := CheckOperation(commits, tip.value, saved); }
      RanNothing(proj, w, fuse0, torn);
      ok := true;
      if own {
        ok := Perform(if saved.head.Some? then SetBranch(saved.branch, saved.head.value) else DropBranch(saved.branch));
      }
      ghost var first, u, left := ok, State(), fuse;
      if ok { ok := RestoreOriginalFiles(saved); }
      ghost var restores: seq<Prim<D>> := RestoreSteps(saved.order, saved.before);
      Both(w, UndoBranch(w, saved), restores, fuse0, first, u, left, ok);
      first, u, left := ok, State(), fuse;
      if ok { ok := Perform(RestoreIndex(saved.index)); }
      Both(w, UndoBranch(w, saved) + restores, [RestoreIndex(saved.index)], fuse0, first, u, left, ok);
      first, u, left := ok, State(), fuse;
      if ok { ok := Perform(RemoveJournal); }
      Both(w, UndoBranch(w, saved) + restores + [RestoreIndex(saved.index)], [RemoveJournal], fuse0, first, u, left,
           ok);
      RollBackStepsAre(w, saved);
    }

    /** `apply_card_changes`. `again` is when the rollback fails, if it runs at all. */
    method ApplyCardChanges(changes: seq<CardChange>, oid: Oid, rows: D, again: Stop)
      returns (outcome: Outcome, ghost op: Operation<D>)
      requires journal.None? ==> Ready(proj, State())
      requires forall c :: c in commits ==> c < oid
      requires (forall c :: c in changes ==> |c.id| >= 4) ==>
        rows == proj(Changed(files, Intended(RenamesOf(changes), WritesOf(changes))))
      modifies this
      ensures outcome.Refused? <==> old(journal).Some? || !(forall c :: c in changes ==> Acceptable(old(files), c))
      ensures outcome.Refused? ==> State() == old(State())
      ensures !outcome.Refused? ==>
        && Prepared(proj, old(State()), op) && Ready(proj, old(State())) && Carries(op, changes)
        && op.oid == oid && op.rows == rows && DistinctPaths(op.paths) && WellSaved(Save(old(State()), op))
      ensures !outcome.Refused? ==>
        Decided(proj, old(State()), op, Stop(old(fuse), old(torn)), again, outcome, State())
      ensures outcome.Applied? ==> DoneAs(old(State()), op, State())
      ensures outcome.RolledBack? ==> Undone(old(State()), State())
      ensures outcome.Abandoned? && old(fuse) >= 2 ==> Recoverable(proj, old(State()), op, State())
    {
      hide Ran, Planned, Ready, Undone, DoneAs, Run, TrySteps, WorkSteps, Save, WellSaved, RollBackSteps, Recoverable,
           Intended, Changed, Acceptable;
      ghost var w, fuse0 := State(), fuse;
      var plan := PlanChanges(files, changes, oid, rows);
      op := if plan.Ok? then plan.value else Operation([], [], [], oid, rows);
      if journal.Some? || plan.Err? { return Refused, op; }
      var todo := plan.value;
      assert Sharded(changes) by { AcceptableSharded(w.files, changes); }
      ReadyJournal(proj, w);
      SavedWell(w, op);
      var saved := Save(State(), todo);
      var ok := TryApply(todo);
      RanAll(proj, w, TrySteps(w, op), fuse0, torn, ok, State(), fuse);
      if ok {
        ghost var u, left := State(), fuse;
        ok := Perform(RemoveJournal);
        RanThen(proj, w, TrySteps(w, op), [RemoveJournal], fuse0, torn, u, left, ok, State(), fuse);
        RanAll(proj, w, AllSteps(w, op), fuse0, torn, ok, State(), fuse);
        TryShorter(w, op);
        ApplyEnds(proj, w, op, fuse0, torn, ok, State());
        return if ok then Applied else Abandoned, op;
      }
      ghost var u, at := State(), Stop(fuse0, torn);
      fuse, torn := again.done, again.torn;
      ok := RollBack(saved);
      RanAll(proj, u, RollBackSteps(u, saved), again.done, torn, ok, State(), fuse);
      TryShorter(w, op);
      RollBackEnds(proj, w, op, at, again, ok, State());
      return if ok then RolledBack else Abandoned, op;
    }

    /** `require_project`: settle the journal of an interrupted mutation, if there is one. It
        throws when the index file is torn, and leaves the journal. */
    method RequireProject(walk: seq<Oid>) returns (ok: bool, ghost ran: bool)
      requires journal.Some? ==> WellSaved(journal.value)
      modifies this
      ensures torn == old(torn)
      ensures old(journal).None? ==> ok && State() == old(State())
      ensures old(journal).Some? ==>
        Result(old(State()), SettleSteps(old(State()), old(journal).value, walk), old(fuse), ran)
      ensures old(journal).Some? ==> (ok <==> ran && !Stuck(old(State()), old(journal).value, walk))
      ensures ok ==> State() == Settle(proj, old(State()), walk) && journal.None?
      ensures old(journal).Some? && Stuck(old(State()), old(journal).value, walk) && ran ==> journal == old(journal)
    {
      hide Ran, WellSaved, FileSteps, Run, Stuck;
      ran := true;
      if journal.None? { return true, true; }
      ghost var w, fuse0 := State(), fuse;
      var saved := journal.value;
      var readable;
      ok, readable := RecoverFiles(saved, walk);
      SettleStepsAre(w, saved, walk);
      if ok && !readable { return false, true; }
      ghost var first, u, left := ok, State(), fuse;
      if ok { ok := Perform(RebuildSql); }
      Both(w, FileSteps(w, saved, walk), [RebuildSql], fuse0, first, u, left, ok);
      ghost var second, v, rest := ok, State(), fuse;
      if ok { ok := Perform(RemoveJournal); }
      Both(w, FileSteps(w, saved, walk) + [RebuildSql], [RemoveJournal], fuse0, second, v, rest, ok);
      ran := ok;
      RanAll(proj, w, SettleSteps(w, saved, walk), fuse0, torn, ok, State(), fuse);
      SettleIs(proj, w, walk, saved);
      SettledNoJournal(proj, w, saved, walk);
    }
  }

  /** Files and index are all that recovery has touched before the journal goes. */
  lemma FilesKeepJournal<D>(proj: Tree -> D, w: World<D>, saved: Saved, walk: seq<Oid>, fuse: nat, torn: Option<nat>,
                            u: World<D>, left: nat)
    requires WellSaved(saved) && Ran(proj, w, FileSteps(w, saved, walk), fuse, torn, true, u, left)
    ensures u.journal == w.journal
  {
    hide FileSteps, WellSaved;
    FilesSettle(proj, w, saved, walk);
  }

  lemma OrderSaved(saved: Saved)
    requires WellSaved(saved)
    ensures forall p :: p in saved.order ==> p in saved.before
    ensures forall i, j :: 0 <= i < j < |saved.order| ==> saved.order[i] != saved.order[j]
  {
  }

  /** The restores made by the first `k` turns of the loop. */
  ghost function RevertSteps<D>(files: Tree, saved: Saved, k: nat): seq<Prim<D>>
    requires WellSaved(saved) && k <= |saved.order|
  {
    RestoreSteps(RevertPaths(files, saved, saved.order[..k]), saved.before)
  }

  lemma NoReverts<D>(files: Tree, saved: Saved)
    requires WellSaved(saved)
    ensures RevertSteps<D>(files, saved, 0) == []
  {
  }

  lemma AllReverts<D>(files: Tree, saved: Saved)
    requires WellSaved(saved)
    ensures RevertSteps<D>(files, saved, |saved.order|) == RestoreSteps(RevertPaths(files, saved, saved.order),
                                                                        saved.before)
  {
    hide RevertPaths, RestoreSteps;
    assert saved.order[..|saved.order|] == saved.order;
  }

  lemma RevertNext<D>(files: Tree, saved: Saved, k: nat)
    requires WellSaved(saved) && k < |saved.order|
    ensures var p := saved.order[k];
      RevertSteps<D>(files, saved, k + 1) ==
        if HoldsAfter(files, saved, p) then RevertSteps(files, saved, k) + [RestoreStep(p, saved.before[p])]
        else RevertSteps(files, saved, k)
  {
    hide HoldsAfter, RevertPaths;
    var p := saved.order[k];
    assert saved.order[..k + 1] == saved.order[..k] + [p];
    RevertSnoc(files, saved, saved.order[..k], p);
  }

  /** A path not yet reached by the loop still has its file untouched. */
  lemma NotYet<D>(proj: Tree -> D, w: World<D>, saved: Saved, k: nat)
    requires WellSaved(saved) && k < |saved.order|
    ensures saved.order[k] in saved.before
    ensures HoldsAfter(Run(proj, w, RevertSteps(w.files, saved, k)).files, saved, saved.order[k]) ==
      HoldsAfter(w.files, saved, saved.order[k])
  {
    hide Changed, RevertPaths, Run;
    RunRestores(proj, w, RevertPaths(w.files, saved, saved.order[..k]), saved.before);
    assert saved.order[k] !in saved.order[..k];
  }

  /** What the loop has still to do. */
  lemma RevertRest<D>(files: Tree, saved: Saved, k: nat) returns (rest: seq<Prim<D>>)
    requires WellSaved(saved) && k <= |saved.order|
    ensures RevertSteps(files, saved, |saved.order|) == RevertSteps(files, saved, k) + rest
    decreases |saved.order| - k
  {
    hide *;
    if k == |saved.order| {
      rest := [];
    } else {
      var next: seq<Prim<D>> := RevertRest(files, saved, k + 1);
      RevertNext<D>(files, saved, k);
      NotYetSaved(saved, k);
      var p := saved.order[k];
      rest := (if HoldsAfter(files, saved, p) then [RestoreStep(p, saved.before[p])] else []) + next;
    }
  }

  lemma NotYetSaved(saved: Saved, k: nat)
    requires WellSaved(saved) && k < |saved.order|
    ensures saved.order[k] in saved.before
  {
  }

  lemma NoSteps<D>()
    ensures RenameSteps<D>([]) == [] && WriteSteps<D>([]) == []
  {
  }

  lemma {:induction false} RenamesSplit<D>(renames: seq<(Path, Path)>, k: nat)
    requires k <= |renames|
    ensures RenameSteps<D>(renames) == RenameSteps(renames[..k]) + RenameSteps(renames[k..])
    decreases |renames|
  {
    hide RenameSteps;
    NoSteps<D>();
    if k > 0 {
      RenamesSplit<D>(renames[1..], k - 1);
      assert renames[..k][1..] == renames[1..][..k - 1] && renames[1..][k - 1..] == renames[k..];
      RenamesFirst<D>(renames);
      RenamesFirst<D>(renames[..k]);
    } else {
      assert renames[..k] == [] && renames[k..] == renames;
    }
  }

  lemma RenamesFirst<D>(renames: seq<(Path, Path)>)
    requires renames != []
    ensures RenameSteps<D>(renames) == [RenameFile(renames[0].0, renames[0].1),
                                        Unstage(renames[0].0)] + RenameSteps(renames[1..])
  {
  }

  lemma {:induction false} WritesSplit<D>(writes: seq<(Path, Bytes)>, k: nat)
    requires k <= |writes|
    ensures WriteSteps<D>(writes) == WriteSteps(writes[..k]) + WriteSteps(writes[k..])
    decreases |writes|
  {
    hide WriteSteps;
    NoSteps<D>();
    if k > 0 {
      WritesSplit<D>(writes[1..], k - 1);
      assert writes[..k][1..] == writes[1..][..k - 1] && writes[1..][k - 1..] == writes[k..];
      WritesFirst<D>(writes);
      WritesFirst<D>(writes[..k]);
    } else {
      assert writes[..k] == [] && writes[k..] == writes;
    }
  }

  lemma WritesFirst<D>(writes: seq<(Path, Bytes)>)
    requires writes != []
    ensures WriteSteps<D>(writes) == [WriteFile(writes[0].0, writes[0].1), Stage(writes[0].0)] + WriteSteps(writes[1..])
  {
  }

  lemma TryStepsAre<D>(w: World<D>, op: Operation<D>)
    ensures BeginSteps<D>(Save(w, op)) + [ResetIndex] + RenameSteps(op.renames) + WriteSteps(op.writes) ==
      BeginSteps(Save(w, op)) + WorkSteps(op)
    ensures TrySteps(w, op) == BeginSteps(Save(w, op)) + WorkSteps(op) + [MakeCommit(op.oid)] + LandSteps(w, op)
    ensures LandSteps(w, op) == [RestoreIndex(w.index),
                                 OverlayIndex(CommitTree(w, op), op.paths)] + [CommitSql(op.rows)]
  {
    hide BeginSteps, RenameSteps, WriteSteps, Save, CommitTree;
  }

  lemma RollBackStepsAre<D>(w: World<D>, saved: Saved)
    requires WellSaved(saved)
    ensures RollBackSteps(w, saved) ==
      UndoBranch(w, saved) + RestoreSteps(saved.order, saved.before) + [RestoreIndex(saved.index)] + [RemoveJournal]
  {
    hide UndoBranch, RestoreSteps;
  }

  /** The index that was committed holds exactly the tree of the commit: the two ways the
      source rebuilds the index agree. */
  lemma StagedIsCommitted<D>(proj: Tree -> D, w: World<D>, op: Operation<D>)
    requires Planned(w.files, op)
    ensures var u := Run(proj, w, BeginSteps(Save(w, op)) + WorkSteps(op) + [MakeCommit(op.oid)]);
      Entries(u.index) == CommitTree(w, op)
  {
    hide Save, CommitTree, WorkSteps, Run, Planned;
    var begin: seq<Prim<D>> := BeginSteps(Save(w, op));
    var w1 := Run(proj, w, begin);
    RunPair(proj, w, WriteScratch, PublishJournal(Save(w, op)));
    RunConcat(proj, w, begin, WorkSteps(op));
    WorkDone(proj, w1, op);
    SameCommitTree(w, w1, op);
    RunConcat(proj, w, begin + WorkSteps(op), [MakeCommit(op.oid)]);
    RunOne(proj, Run(proj, w1, WorkSteps(op)), MakeCommit(op.oid));
  }

  ghost predicate Sharded(changes: seq<CardChange>)
  {
    forall c :: c in changes ==> |c.id| >= 4
  }

  lemma AcceptableSharded(files: Tree, changes: seq<CardChange>)
    requires forall c :: c in changes ==> Acceptable(files, c)
    ensures Sharded(changes)
  {
    forall c | c in changes
      ensures |c.id| >= 4
    {
      assert Acceptable(files, c);
    }
  }

  /** The operation carries exactly these changes, and journals exactly the files of their cards. */
  ghost predicate Carries<D>(op: Operation<D>, changes: seq<CardChange>)
  {
    && Sharded(changes) && op.renames == RenamesOf(changes) && op.writes == WritesOf(changes)
    && forall p :: p in op.paths <==> PathOf(changes, p)
  }

  lemma TryShorter<D>(w: World<D>, op: Operation<D>)
    ensures |AllSteps(w, op)| == |TrySteps(w, op)| + 1
  {
    hide TrySteps;
  }

  /** When each outcome occurs, and with what state: the operation is applied exactly when no step
      of it fails; it is rolled back when a step of the try block fails and none of the rollback;
      otherwise it is abandoned where the last failure was. */
  ghost predicate Decided<D>(proj: Tree -> D, w: World<D>, op: Operation<D>, at: Stop, again: Stop, outcome: Outcome,
                             v: World<D>)
    requires WellSaved(Save(w, op))
  {
    if at.done >= |AllSteps(w, op)| then outcome.Applied? && v == Run(proj, w, AllSteps(w, op))
    else if at.done >= |TrySteps(w, op)| then
      outcome.Abandoned? && StopsIn(at, AllSteps(w, op)) && v == StoppedAt(proj, w, AllSteps(w, op), at)
    else
      && StopsIn(at, TrySteps(w, op))
      && var u := StoppedAt(proj, w, TrySteps(w, op), at);
         var back := RollBackSteps(u, Save(w, op));
         if again.done >= |back| then outcome.RolledBack? && v == Run(proj, u, back)
         else outcome.Abandoned? && StopsIn(again, back) && v == StoppedAt(proj, u, back, again)
  }

  /** Whatever was left behind, settling it gives the state before or the state after, unless a
      torn index file was left with the journal: then nothing settles it. */
  ghost predicate Recoverable<D>(proj: Tree -> D, w: World<D>, op: Operation<D>, v: World<D>)
  {
    forall walk :: IsWalk(Done(w, op).commits, op.oid, Tip(w, w.head), walk) ==> SettlesWhole(proj, w, op, v, walk)
  }

  ghost predicate SettlesWhole<D>(proj: Tree -> D, w: World<D>, op: Operation<D>, v: World<D>, walk: seq<Oid>)
  {
    && (v.journal.Some? ==> WellSaved(v.journal.value))
    && if v.journal.Some? && v.index.TornIndex? then StuckWith(v, Save(w, op), walk)
       else Undone(w, Settle(proj, v, walk)) || DoneAs(w, op, Settle(proj, v, walk))
  }

  lemma ApplyEnds<D>(proj: Tree -> D, w: World<D>, op: Operation<D>, fuse: nat, torn: Option<nat>, ok: bool,
                     v: World<D>)
    requires Ready(proj, w) && Prepared(proj, w, op) && DistinctPaths(op.paths) && fuse >= |TrySteps(w, op)|
    requires ok ==> v == Run(proj, w, AllSteps(w, op))
    requires !ok ==> fuse < |AllSteps(w, op)| && v == StoppedAt(proj, w, AllSteps(w, op), Stop(fuse, torn))
    ensures ok ==> DoneAs(w, op, v)
    ensures !ok ==> Recoverable(proj, w, op, v)
  {
    hide *;
    TryLength(w, op);
    AllLength(w, op);
    PreparedPlan(proj, w, op);
    if ok {
      var at := Stop(|AllSteps(w, op)|, None);
      StopsAtEnd(AllSteps(w, op));
      StopEnd(proj, w, AllSteps(w, op), at);
      OperationStops(proj, w, op, at);
    } else {
      var at := Stop(fuse, torn);
      StopsInside(at, AllSteps(w, op));
      ReadyJournal(proj, w);
      AllWhole(w, op);
      TornExactly(proj, w, AllSteps(w, op), at);
      forall walk | IsWalk(Done(w, op).commits, op.oid, Tip(w, w.head), walk)
        ensures SettlesWhole(proj, w, op, v, walk)
      {
        CrashAtomicity(proj, w, op, at, walk);
        StuckWithIs(v, Save(w, op), walk);
        SettlesWholeIf(proj, w, op, v, walk);
      }
      RecoverableIf(proj, w, op, v);
    }
  }

  lemma StopsAtEnd<D>(steps: seq<Prim<D>>)
    ensures StopsIn(Stop(|steps|, None), steps)
  {
  }

  lemma AllLength<D>(w: World<D>, op: Operation<D>)
    ensures |AllSteps(w, op)| == CommitPoint(op) + 5
  {
    hide TrySteps, CommitPoint;
    TryLength(w, op);
  }

  lemma RecoverableIf<D>(proj: Tree -> D, w: World<D>, op: Operation<D>, v: World<D>)
    requires forall walk :: IsWalk(Done(w, op).commits, op.oid, Tip(w, w.head), walk) ==>
      SettlesWhole(proj, w, op, v, walk)
    ensures Recoverable(proj, w, op, v)
  {
    hide IsWalk, SettlesWhole, Done;
  }

  lemma SettlesWholeIf<D>(proj: Tree -> D, w: World<D>, op: Operation<D>, v: World<D>, walk: seq<Oid>)
    requires v.journal.Some? ==> WellSaved(v.journal.value)
    requires if v.journal.Some? && v.index.TornIndex? then StuckWith(v, Save(w, op), walk)
             else Undone(w, Settle(proj, v, walk)) || DoneAs(w, op, Settle(proj, v, walk))
    ensures SettlesWhole(proj, w, op, v, walk)
  {
    hide WellSaved, Undone, DoneAs, Settle, StuckWith, Save;
  }

  lemma RollBackEnds<D>(proj: Tree -> D, w: World<D>, op: Operation<D>, at: Stop, again: Stop, ok: bool, v: World<D>)
    requires Ready(proj, w) && Prepared(proj, w, op) && DistinctPaths(op.paths) && WellSaved(Save(w, op))
    requires StopsIn(at, TrySteps(w, op)) && at.done < |TrySteps(w, op)|
    requires var u := StoppedAt(proj, w, TrySteps(w, op), at);
      if ok then v == Run(proj, u, RollBackSteps(u, Save(w, op)))
      else StopsIn(again, RollBackSteps(u, Save(w, op))) && v == StoppedAt(proj, u, RollBackSteps(u, Save(w, op)),
                                                                           again)
    ensures ok ==> Undone(w, v)
    ensures !ok && at.done >= 2 ==> Recoverable(proj, w, op, v)
  {
    hide *;
    if ok {
      CaughtFailureUndone(proj, w, op, at);
    } else if at.done >= 2 {
      PreparedPlan(proj, w, op);
      TornFault(proj, w, op, at, again);
      forall walk | IsWalk(Done(w, op).commits, op.oid, Tip(w, w.head), walk)
        ensures SettlesWhole(proj, w, op, v, walk)
      {
        DoubleFault(proj, w, op, at, again, walk);
        SettlesWholeIf(proj, w, op, v, walk);
      }
      RecoverableIf(proj, w, op, v);
    }
  }
}

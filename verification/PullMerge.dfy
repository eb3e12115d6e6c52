/** A pull whose branches have diverged: the path-level three-way merge of
    src/git/GitRepo.cpp, built from two diffs, a safe checkout and an overlay. */
module PullMerge {
  import opened Common
  import opened Journal
  import Atomicity

  // ----- what the merge means -----

  /** At every path the remote's entry when the remote changed it, the local one otherwise. */
  function Merged(base: Tree, mine: Tree, theirs: Tree): (r: Tree)
    ensures forall p :: Get(r, p) == if Get(theirs, p) != Get(base, p) then Get(theirs, p) else Get(mine, p)
  {
    map p | p in mine.Keys + theirs.Keys && (if Get(theirs, p) != Get(base, p) then p in theirs else p in mine) ::
      if Get(theirs, p) != Get(base, p) then theirs[p] else mine[p]
  }

  /** Both sides changed the path. */
  predicate Conflicted(base: Tree, mine: Tree, theirs: Tree, p: Path)
  {
    Get(mine, p) != Get(base, p) && Get(theirs, p) != Get(base, p)
  }

  predicate LocalOnly(base: Tree, mine: Tree, theirs: Tree, p: Path)
  {
    Get(mine, p) != Get(base, p) && Get(theirs, p) == Get(base, p)
  }

  /** Swapping the sides changes the result exactly where both changed a path differently. */
  lemma SidesSwap(base: Tree, mine: Tree, theirs: Tree, p: Path)
    ensures Conflicted(base, mine, theirs, p) <==> Conflicted(base, theirs, mine, p)
    ensures Get(Merged(base, mine, theirs), p) != Get(Merged(base, theirs, mine), p) <==>
      Conflicted(base, mine, theirs, p) && Get(mine, p) != Get(theirs, p)
  {
  }

  /** With nothing changed on one side the merge is the other side. */
  lemma OneSided(base: Tree, other: Tree)
    ensures Merged(base, base, other) == other && Merged(base, other, base) == other
  {
    SameMap(Merged(base, base, other), other);
    SameMap(Merged(base, other, base), other);
  }

  // ----- how two commits are related -----

  /** `git_graph_descendant_of`, a commit counting as its own descendant. */
  function DescendsFrom(commits: map<Oid, Commit>, c: Oid, a: Oid): bool
    requires History(commits) && c in commits
    decreases c
  {
    c == a || exists i :: 0 <= i < |commits[c].parents| && DescendsFrom(commits, commits[c].parents[i], a)
  }

  lemma {:induction false} DescendsExact(commits: map<Oid, Commit>, c: Oid, a: Oid)
    requires History(commits) && c in commits
    ensures DescendsFrom(commits, c, a) <==> Atomicity.Reaches(commits, c, a)
    decreases c
  {
    if c == a {
      assert Atomicity.ReachesIn(commits, c, a, 0);
    } else {
      if i :| 0 <= i < |commits[c].parents| && DescendsFrom(commits, commits[c].parents[i], a) {
        DescendsExact(commits, commits[c].parents[i], a);
        var n: nat :| Atomicity.ReachesIn(commits, commits[c].parents[i], a, n);
        assert Atomicity.ReachesIn(commits, c, a, n + 1);
      }
      if n: nat :| Atomicity.ReachesIn(commits, c, a, n) {
        assert n > 0;
        var i :| 0 <= i < |commits[c].parents| && Atomicity.ReachesIn(commits, commits[c].parents[i], a, n - 1);
        assert Atomicity.Reaches(commits, commits[c].parents[i], a);
        DescendsExact(commits, commits[c].parents[i], a);
      }
    }
  }

  // ----- the steps -----

  datatype ChangedPath = ChangedPath(path: Path, deleted: bool)

  /** Exactly the paths where the trees differ, each once. */
  ghost predicate IsDiff(a: Tree, b: Tree, changes: seq<ChangedPath>)
  {
    && (forall i, j :: 0 <= i < j < |changes| ==> changes[i].path != changes[j].path)
    && (forall i :: 0 <= i < |changes| ==>
          Get(a, changes[i].path) != Get(b, changes[i].path) && changes[i].deleted == (changes[i].path !in b))
    && forall p :: Get(a, p) != Get(b, p) ==> Listed(changes, p)
  }

  ghost predicate Listed(changes: seq<ChangedPath>, p: Path)
  {
    exists i :: 0 <= i < |changes| && changes[i].path == p
  }

  /** `diff_changed_paths`. */
  method DiffChangedPaths(a: Tree, b: Tree) returns (changes: seq<ChangedPath>)
    ensures IsDiff(a, b, changes)
  {
    hide Listed, Get;
    changes := [];
    var left := set p | p in a.Keys + b.Keys && Get(a, p) != Get(b, p);
    NoneListed();
    AllDifferences(a, b, left);
    while left != {}
      invariant forall p :: p in left ==> Get(a, p) != Get(b, p) && !Listed(changes, p)
      invariant forall i, j :: 0 <= i < j < |changes| ==> changes[i].path != changes[j].path
      invariant forall i :: 0 <= i < |changes| ==>
          Get(a, changes[i].path) != Get(b, changes[i].path) && changes[i].deleted == (changes[i].path !in b)
      invariant forall p :: Get(a, p) != Get(b, p) ==> p in left || Listed(changes, p)
      decreases |left|
    {
      var p :| p in left;
      var c := ChangedPath(p, p !in b);
      forall q
        ensures Listed(changes + [c], q) <==> q == p || Listed(changes, q)
      {
        ListedNext(changes, c, q);
      }
      NotListed(changes, p);
      changes, left := changes + [c], left - {p};
    }
  }

  lemma NoneListed()
    ensures forall p :: !Listed([], p)
  {
  }

  lemma NotListed(changes: seq<ChangedPath>, p: Path)
    requires !Listed(changes, p)
    ensures forall i :: 0 <= i < |changes| ==> changes[i].path != p
  {
  }

  lemma AllDifferences(a: Tree, b: Tree, paths: set<Path>)
    requires paths == set p | p in a.Keys + b.Keys && Get(a, p) != Get(b, p)
    ensures forall p :: p in paths <==> Get(a, p) != Get(b, p)
  {
  }

  lemma ListedNext(changes: seq<ChangedPath>, c: ChangedPath, q: Path)
    ensures Listed(changes + [c], q) <==> q == c.path || Listed(changes, q)
  {
    var next := changes + [c];
    if Listed(changes, q) {
      var i :| 0 <= i < |changes| && changes[i].path == q;
      assert next[i].path == q;
    }
    if q == c.path { assert next[|changes|].path == q; }
  }

  /** A file a safe checkout must not overwrite: it is there, holds neither what the old commit
      nor what the new one has, and those differ. */
  predicate Blocked(files: Tree, mine: Tree, theirs: Tree, p: Path)
  {
    p in files && Get(mine, p) != Get(theirs, p) && Get(files, p) != Get(mine, p) && Get(files, p) != Get(theirs, p)
  }

  predicate Rewrites(files: Tree, mine: Tree, theirs: Tree, p: Path)
  {
    Get(mine, p) != Get(theirs, p) || p !in files
  }

  /** A safe checkout that recreates missing files. */
  function CheckedOut(files: Tree, mine: Tree, theirs: Tree): (r: Tree)
    ensures forall p :: Get(r, p) == if Rewrites(files, mine, theirs, p) then Get(theirs, p) else Get(files, p)
  {
    map p | p in files.Keys + theirs.Keys && (if Rewrites(files, mine, theirs, p) then p in theirs else p in files) ::
      if Rewrites(files, mine, theirs, p) then theirs[p] else files[p]
  }

  /** One working file after the merge. */
  ghost predicate FileMerged(base: Tree, mine: Tree, theirs: Tree, before: Tree, after: Tree, p: Path)
  {
    Get(after, p) == if LocalOnly(base, mine, theirs, p) then Get(mine, p) else Get(CheckedOut(before, mine, theirs), p)
  }

  datatype PullOutcome = UpToDate | Ahead | FastForwarded | Diverged | Failed

  class Clone {
    var files: Tree
    var index: Tree
    var commits: map<Oid, Commit>
    var tip: Oid

    constructor (files: Tree, index: Tree, commits: map<Oid, Commit>, tip: Oid)
      ensures this.files == files && this.index == index && this.commits == commits && this.tip == tip
    {
      this.files, this.index, this.commits, this.tip := files, index, commits, tip;
    }

    /** The branch exists and nothing is staged. */
    ghost predicate Clean()
      reads this
    {
      tip in commits && index == commits[tip].tree
    }

    /** `checkout_commit_oid`. */
    method Checkout(oid: Oid) returns (ok: bool)
      requires Clean() && oid in commits
      modifies this`files, this`index
      ensures ok <==> forall p :: !Blocked(old(files), commits[tip].tree, commits[oid].tree, p)
      ensures ok ==> files == CheckedOut(old(files), commits[tip].tree, commits[oid].tree) && index == commits[oid].tree
      ensures !ok ==> files == old(files) && index == old(index)
    {
      var mine, theirs := commits[tip].tree, commits[oid].tree;
      var blocked := set p | p in files.Keys + mine.Keys + theirs.Keys && Blocked(files, mine, theirs, p);
      ok := blocked == {};
      assert forall p :: p in blocked <==> Blocked(files, mine, theirs, p);
      if ok { files, index := CheckedOut(files, mine, theirs), theirs; } else { assert exists p :: p in blocked; }
    }

    /** `merge_remote_taking_theirs_for_conflicts`. */
    method MergeTakingTheirs(base: Option<Oid>, remote: Oid, newOid: Oid) returns (r: Result<seq<Path>>)
      requires Clean() && remote in commits && (base.Some? ==> base.value in commits) && newOid !in commits
      modifies this
      ensures r.Ok? <==>
        base.Some? && forall p :: !Blocked(old(files), old(commits[tip].tree), old(commits)[remote].tree, p)
      ensures r.Err? ==> files == old(files) && index == old(index) && commits == old(commits) && tip == old(tip)
      ensures r.Ok? ==> Clean() && tip == newOid && commits == old(commits)[newOid := commits[newOid]]
      ensures r.Ok? ==> commits[newOid] == Commit([old(tip), remote],
        Merged(old(commits)[base.value].tree, old(commits[tip].tree), old(commits)[remote].tree))
      ensures r.Ok? ==>
        forall p :: FileMerged(old(commits)[base.value].tree, old(commits[tip].tree), old(commits)[remote].tree,
                                               old(files), files, p)
      ensures r.Ok? ==> forall p :: p in r.value <==>
        Conflicted(old(commits)[base.value].tree, old(commits[tip].tree), old(commits)[remote].tree, p)
      ensures r.Ok? ==> forall p :: Get(old(commits[tip].tree), p) != Get(old(commits)[base.value].tree, p) ==>
        Get(commits[newOid].tree, p) == Get(old(commits[tip].tree), p) || p in r.value
      ensures r.Ok? && old(files) == old(commits[tip].tree) ==> files == commits[newOid].tree
    {
      if base.None? { return Err("git_merge_base failed"); }
      var baseTree, mine, theirs := commits[base.value].tree, commits[tip].tree, commits[remote].tree;
      var localChanges := DiffChangedPaths(baseTree, mine);
      var remoteChanges := DiffChangedPaths(baseTree, theirs);
      var conflicted, localOnly := Classify(baseTree, mine, theirs, localChanges, remoteChanges);
      var ok := Checkout(remote);
      if !ok { return Err("git_checkout_tree failed"); }
      Overlay(mine, localOnly);
      OverlayIsMerged(baseTree, mine, theirs, localOnly, index);
      forall p
        ensures old(files) == mine ==> Get(files, p) == Get(index, p)
      {
        assert FileMerged(baseTree, mine, theirs, old(files), files, p);
      }
      if old(files) == mine { SameMap(files, index); }
      commits := commits[newOid := Commit([tip, remote], index)];
      tip := newOid;
      r := Ok(conflicted);
    }

    /** The local-only changes laid over the remote's checkout, in files and index. */
    method Overlay(mine: Tree, changes: seq<ChangedPath>)
      requires forall i :: 0 <= i < |changes| ==> changes[i].deleted == (changes[i].path !in mine)
      modifies this`files, this`index
      ensures forall p :: Get(files, p) == if Listed(changes, p) then Get(mine, p) else Get(old(files), p)
      ensures forall p :: Get(index, p) == if Listed(changes, p) then Get(mine, p) else Get(old(index), p)
    {
      for k := 0 to |changes|
        invariant forall p :: Get(files, p) == if Listed(changes[..k], p) then Get(mine, p) else Get(old(files), p)
        invariant forall p :: Get(index, p) == if Listed(changes[..k], p) then Get(mine, p) else Get(old(index), p)
      {
        var c := changes[k];
        assert changes[..k + 1] == changes[..k] + [c];
        forall q
          ensures Listed(changes[..k + 1], q) <==> q == c.path || Listed(changes[..k], q)
        {
          ListedNext(changes[..k], c, q);
        }
        if c.deleted {
          files, index := files - {c.path}, index - {c.path};
        } else {
          files, index := files[c.path := mine[c.path]], index[c.path := mine[c.path]];
        }
      }
      assert changes[..|changes|] == changes;
    }

    /** `pull_remote_ff_only`, once the remote branch is known. */
    method PullFastForward(remote: Oid) returns (outcome: PullOutcome)
      requires Clean() && remote in commits && History(commits)
      modifies this
      ensures commits == old(commits)
      ensures outcome == UpToDate <==> old(tip) == remote
      ensures outcome == Diverged <==>
        !Atomicity.Reaches(commits, remote, old(tip)) && !Atomicity.Reaches(commits, old(tip), remote)
      ensures outcome == Ahead <==>
        !Atomicity.Reaches(commits, remote, old(tip)) && Atomicity.Reaches(commits, old(tip), remote)
      ensures outcome == Failed <==>
        && old(tip) != remote && Atomicity.Reaches(commits, remote, old(tip))
        && exists p :: Blocked(old(files), old(commits[tip].tree), commits[remote].tree, p)
      ensures outcome == FastForwarded ==> tip == remote && Clean()
      ensures outcome == FastForwarded ==> files == CheckedOut(old(files), old(commits[tip].tree), commits[remote].tree)
      ensures outcome == FastForwarded ==>
        index == Merged(old(commits[tip].tree), old(commits[tip].tree), commits[remote].tree)
      ensures outcome != FastForwarded ==> files == old(files) && index == old(index) && tip == old(tip)
    {
      DescendsExact(commits, remote, tip);
      DescendsExact(commits, tip, remote);
      if tip == remote { return UpToDate; }
      if !DescendsFrom(commits, remote, tip) { return if DescendsFrom(commits, tip, remote) then Ahead else Diverged; }
      OneSided(commits[tip].tree, commits[remote].tree);
      var ok := Checkout(remote);
      if !ok { return Failed; }
      tip := remote;
      return FastForwarded;
    }
  }

  /** The loop that tells conflicts from local-only changes. */
  method Classify(base: Tree, mine: Tree, theirs: Tree, localChanges: seq<ChangedPath>, remoteChanges: seq<ChangedPath>)
    returns (conflicted: seq<Path>, localOnly: seq<ChangedPath>)
    requires IsDiff(base, mine, localChanges) && IsDiff(base, theirs, remoteChanges)
    ensures forall p :: p in conflicted <==> Conflicted(base, mine, theirs, p)
    ensures forall p :: Listed(localOnly, p) <==> LocalOnly(base, mine, theirs, p)
    ensures forall i :: 0 <= i < |localOnly| ==> localOnly[i].deleted == (localOnly[i].path !in mine)
  {
    var remote := set i | 0 <= i < |remoteChanges| :: remoteChanges[i].path;
    RemotePaths(base, theirs, remoteChanges, remote);
    conflicted, localOnly := [], [];
    for k := 0 to |localChanges|
      invariant forall p :: p in conflicted <==> Listed(localChanges[..k], p) && p in remote
      invariant forall p :: Listed(localOnly, p) <==> Listed(localChanges[..k], p) && p !in remote
      invariant forall i :: 0 <= i < |localOnly| ==> localOnly[i].deleted == (localOnly[i].path !in mine)
    {
      var c := localChanges[k];
      assert localChanges[..k + 1] == localChanges[..k] + [c];
      forall q ensures Listed(localChanges[..k + 1], q) <==> q == c.path || Listed(localChanges[..k], q) {
        ListedNext(localChanges[..k], c, q);
      }
      if c.path in remote {
        conflicted := conflicted + [c.path];
      } else {
        forall q ensures Listed(localOnly + [c], q) <==> q == c.path || Listed(localOnly,
                                                                               q) { ListedNext(localOnly, c, q); }
        localOnly := localOnly + [c];
      }
    }
    assert localChanges[..|localChanges|] == localChanges;
  }

  lemma RemotePaths(base: Tree, theirs: Tree, changes: seq<ChangedPath>, paths: set<Path>)
    requires IsDiff(base, theirs, changes) && paths == set i | 0 <= i < |changes| :: changes[i].path
    ensures forall p :: p in paths <==> Get(theirs, p) != Get(base, p)
  {
    forall p
      ensures p in paths <==> Get(theirs, p) != Get(base, p)
    {
      if Get(theirs, p) != Get(base, p) { assert Listed(changes, p); }
    }
  }

  /** Remote tree plus local-only changes is the merge. */
  lemma OverlayIsMerged(base: Tree, mine: Tree, theirs: Tree, localOnly: seq<ChangedPath>, index: Tree)
    requires forall p :: Listed(localOnly, p) <==> LocalOnly(base, mine, theirs, p)
    requires forall p :: Get(index, p) == if Listed(localOnly, p) then Get(mine, p) else Get(theirs, p)
    ensures index == Merged(base, mine, theirs)
  {
    SameMap(index, Merged(base, mine, theirs));
  }
}

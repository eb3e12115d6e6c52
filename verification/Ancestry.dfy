/** Ancestor walks: `reachable_card_parent` and `validate_card_parent` of
    src/card/CardHierarchy.cpp, and the forest invariant they protect. */
module Ancestry {
  import opened Common
  import opened Cards

  const CYCLE := "move_would_create_cycle"
  const NOT_FOUND := "target_not_found"

  // ----- reachability -----

  /** `d` heads a chain of exactly `n` live cards of the project that ends at a root and
      avoids `avoid`; no card at all is a chain of length 0. */
  ghost predicate Anchored(t: Table, project: string, d: Option<Id>, avoid: set<Id>, n: nat)
    decreases n
  {
    if d.None? then n == 0
    else
      && n > 0 && d.value in t && d.value !in avoid
      && t[d.value].project == project && t[d.value].Live()
      && Anchored(t, project, t[d.value].parent, avoid, n - 1)
  }

  ghost predicate Reachable(t: Table, project: string, d: Option<Id>, avoid: set<Id>)
  {
    exists n :: Anchored(t, project, d, avoid, n)
  }

  /** The invariant of a project tree: every live card has a finite, all-live, same-project
      ancestor chain ending at a root. */
  ghost predicate Forest(t: Table)
  {
    forall id :: id in t && t[id].Live() ==> Reachable(t, t[id].project, Some(id), {})
  }

  lemma {:induction false} AnchoredUnique(t: Table, project: string, d: Option<Id>, A: set<Id>, B: set<Id>, m: nat,
                                          n: nat)
    requires Anchored(t, project, d, A, m) && Anchored(t, project, d, B, n)
    ensures m == n
    decreases m
  {
    if d.Some? { AnchoredUnique(t, project, t[d.value].parent, A, B, m - 1, n - 1); }
  }

  lemma {:induction false} AvoidLess(t: Table, project: string, d: Option<Id>, A: set<Id>, B: set<Id>, n: nat)
    requires Anchored(t, project, d, A, n) && B <= A
    ensures Anchored(t, project, d, B, n)
    decreases n
  {
    if d.Some? { AvoidLess(t, project, t[d.value].parent, A, B, n - 1); }
  }

  // ----- the walk -----

  /** What a walk towards the root finds: a revisited card, a missing or foreign ancestor,
      or the root, with the nearest ancestor above which everything is live and whether
      that was all of them. */
  datatype Up = Loop | Broken | Top(nearest: Option<Id>, clean: bool)

  function WalkUp(t: Table, project: string, next: Option<Id>, visited: set<Id>): (u: Up)
    decreases t.Keys - visited
  {
    if next.None? then Top(None, true)
    else if next.value in visited then Loop
    else if next.value !in t || t[next.value].project != project then Broken
    else
      var rest := WalkUp(t, project, t[next.value].parent, visited + {next.value});
      if !rest.Top? then rest
      else if !t[next.value].Live() then Top(rest.nearest, false)
      else if rest.clean then Top(next, true)
      else rest
  }

  function Verdict(u: Up, candidate: Option<Id>): Result<Option<Id>>
  {
    match u
    case Loop => Err(CYCLE)
    case Broken => Ok(None)
    case Top(nearest, clean) => Ok(if clean && candidate.Some? then candidate else nearest)
  }

  function ReachableParent(t: Table, card: Card): (r: Result<Option<Id>>)
  {
    Verdict(WalkUp(t, card.project, card.parent, {card.id}), None)
  }

  method ComputeReachableParent(t: Table, card: Card) returns (r: Result<Option<Id>>)
    requires WellKeyed(t)
    ensures r == ReachableParent(t, card)
  {
    var visited := {card.id};
    var next := card.parent;
    var candidate: Option<Id> := None;
    while next.Some?
      invariant ReachableParent(t, card) == Verdict(WalkUp(t, card.project, next, visited), candidate)
      decreases t.Keys - visited, next.Some?
    {
      if next.value in visited {
        return Err(CYCLE);
      }
      visited := visited + {next.value};
      if next.value !in t || t[next.value].project != card.project {
        return Ok(None);
      }
      var ancestor := t[next.value];
      if !ancestor.Live() {
        candidate := None;
      } else if candidate.None? {
        candidate := Some(ancestor.id);
      }
      next := ancestor.parent;
    }
    return Ok(candidate);
  }

  /** `validate_card_parent`. */
  function ValidateParent(t: Table, card: Card): (r: Result<Option<Id>>)
  {
    var r := ReachableParent(t, card);
    if r.Err? then r else if r.value != card.parent then Err(NOT_FOUND) else r
  }

  // ----- what the walk means -----

  lemma {:induction false} WalkSound(t: Table, project: string, next: Option<Id>, visited: set<Id>)
    requires WalkUp(t, project, next, visited).Top?
    ensures var u := WalkUp(t, project, next, visited);
      Reachable(t, project, u.nearest, visited) && (u.clean ==> u.nearest == next)
    decreases t.Keys - visited
  {
    var u := WalkUp(t, project, next, visited);
    if next.None? {
      assert Anchored(t, project, None, visited, 0);
    } else {
      var more := visited + {next.value};
      WalkSound(t, project, t[next.value].parent, more);
      var rest := WalkUp(t, project, t[next.value].parent, more);
      var n: nat :| Anchored(t, project, rest.nearest, more, n);
      AvoidLess(t, project, rest.nearest, more, visited, n);
      assert u == Top(next, true) ==> Anchored(t, project, next, visited, n + 1);
    }
  }

  lemma {:induction false} WalkComplete(t: Table, project: string, next: Option<Id>, visited: set<Id>, n: nat)
    requires Anchored(t, project, next, visited, n)
    ensures WalkUp(t, project, next, visited) == Top(next, true)
    decreases n
  {
    if next.Some? {
      StepAvoids(t, project, t[next.value].parent, visited, next.value, n - 1, n);
      WalkComplete(t, project, t[next.value].parent, visited + {next.value}, n - 1);
    }
  }

  /** A chain shorter than `p`'s own cannot pass through `p`. */
  lemma {:induction false} StepAvoids(t: Table, project: string, d: Option<Id>, avoid: set<Id>, p: Id, m: nat, n: nat)
    requires Anchored(t, project, d, avoid, m) && Anchored(t, project, Some(p), avoid, n) && m < n
    ensures Anchored(t, project, d, avoid + {p}, m)
    decreases m
  {
    if d.Some? {
      if d.value == p { AnchoredUnique(t, project, d, avoid, avoid, m, n); }
      StepAvoids(t, project, t[d.value].parent, avoid, p, m - 1, n);
    }
  }

  /** A reachable parent is found live, in the project, on an all-live chain to a root that
      does not pass through the card: taking it as the parent cannot close a cycle. */
  lemma ReachableParentSound(t: Table, card: Card)
    requires ReachableParent(t, card).Ok?
    ensures Reachable(t, card.project, ReachableParent(t, card).value, {card.id})
  {
    var u := WalkUp(t, card.project, card.parent, {card.id});
    if u.Top? { WalkSound(t, card.project, card.parent, {card.id}); }
    else { assert Anchored(t, card.project, None, {card.id}, 0); }
  }

  /** Validation accepts exactly the parents on an all-live chain that avoids the card. */
  lemma ValidateParentExact(t: Table, card: Card)
    ensures ValidateParent(t, card).Ok? <==> Reachable(t, card.project, card.parent, {card.id})
  {
    if ValidateParent(t, card).Ok? { ReachableParentSound(t, card); }
    if Reachable(t, card.project, card.parent, {card.id}) {
      var n: nat :| Anchored(t, card.project, card.parent, {card.id}, n);
      WalkComplete(t, card.project, card.parent, {card.id}, n);
    }
  }

  /** `a` stands `k` steps up the chain that starts at `next`. */
  ghost predicate Ancestor(t: Table, project: string, next: Option<Id>, k: nat, a: Id)
    decreases k
  {
    next.Some? &&
    if k == 0 then next.value == a
    else next.value in t && t[next.value].project == project && Ancestor(t, project, t[next.value].parent, k - 1, a)
  }

  /** The parent found is the nearest one: no ancestor closer to the card is reachable. */
  lemma {:induction false} NearestFirst(t: Table, project: string, next: Option<Id>, visited: set<Id>, k: nat, a: Id)
    requires Ancestor(t, project, next, k, a) && Reachable(t, project, Some(a), {})
    requires !WalkUp(t, project, next, visited).Loop?
    ensures var u := WalkUp(t, project, next, visited);
      u.Top? && u.nearest.Some? && exists j :: 0 <= j <= k && Ancestor(t, project, next, j, u.nearest.value)
    decreases k
  {
    if k == 0 {
      var n: nat :| Anchored(t, project, Some(a), {}, n);
      WalkAnchored(t, project, next, visited, n);
      assert Ancestor(t, project, next, 0, a);
    } else {
      if next.value in t && !(next.value in visited) {
        NearestFirst(t, project, t[next.value].parent, visited + {next.value}, k - 1, a);
        var rest := WalkUp(t, project, t[next.value].parent, visited + {next.value});
        var j :| 0 <= j <= k - 1 && Ancestor(t, project, t[next.value].parent, j, rest.nearest.value);
        assert Ancestor(t, project, next, j + 1, rest.nearest.value);
        assert Ancestor(t, project, next, 0, next.value);
      }
    }
  }

  lemma {:induction false} WalkAnchored(t: Table, project: string, next: Option<Id>, visited: set<Id>, n: nat)
    requires Anchored(t, project, next, {}, n) && !WalkUp(t, project, next, visited).Loop?
    ensures WalkUp(t, project, next, visited) == Top(next, true)
    decreases n
  {
    if next.Some? { WalkAnchored(t, project, t[next.value].parent, visited + {next.value}, n - 1); }
  }

  // ----- cycles -----

  /** The chain from `next` ends, at a root or at a missing or foreign card, after `n` steps. */
  ghost predicate EndsIn(t: Table, project: string, next: Option<Id>, n: nat)
    decreases n
  {
    if next.None? || next.value !in t || t[next.value].project != project then n == 0
    else n > 0 && EndsIn(t, project, t[next.value].parent, n - 1)
  }

  /** The chain above the card never ends. */
  ghost predicate Loops(t: Table, project: string, next: Option<Id>)
  {
    forall n :: !EndsIn(t, project, next, n)
  }

  lemma {:induction false} EndsUnique(t: Table, project: string, next: Option<Id>, m: nat, n: nat)
    requires EndsIn(t, project, next, m) && EndsIn(t, project, next, n)
    ensures m == n
    decreases m
  {
    if next.Some? && next.value in t && t[next.value].project == project {
      EndsUnique(t, project, t[next.value].parent, m - 1, n - 1);
    }
  }

  lemma {:induction false} WalkEnds(t: Table, project: string, next: Option<Id>, visited: set<Id>) returns (n: nat)
    requires !WalkUp(t, project, next, visited).Loop?
    ensures EndsIn(t, project, next, n)
    decreases t.Keys - visited
  {
    if next.None? || next.value !in t || t[next.value].project != project {
      n := 0;
    } else {
      n := WalkEnds(t, project, t[next.value].parent, visited + {next.value});
      n := n + 1;
    }
  }

  lemma {:induction false} EndingWalk(t: Table, project: string, next: Option<Id>, visited: set<Id>, n: nat)
    requires EndsIn(t, project, next, n)
    requires forall v, m: nat :: v in visited && EndsIn(t, project, Some(v), m) ==> m > n
    requires forall v :: v in visited ==> v in t && t[v].project == project
    ensures !WalkUp(t, project, next, visited).Loop?
    decreases n
  {
    if next.Some? && next.value in t && t[next.value].project == project {
      assert EndsIn(t, project, Some(next.value), n);
      forall v, m: nat | v in visited + {next.value} && EndsIn(t, project, Some(v), m)
        ensures m > n - 1
      {
        if v == next.value { EndsUnique(t, project, next, m, n); }
      }
      EndingWalk(t, project, t[next.value].parent, visited + {next.value}, n - 1);
    }
  }

  /** The walk from a stored card reports a cycle exactly when its chain never ends. */
  lemma LoopExact(t: Table, id: Id)
    requires id in t
    ensures WalkUp(t, t[id].project, t[id].parent, {id}).Loop? <==> Loops(t, t[id].project, Some(id))
  {
    var project := t[id].project;
    if !WalkUp(t, project, t[id].parent, {id}).Loop? {
      var n := WalkEnds(t, project, t[id].parent, {id});
      assert EndsIn(t, project, Some(id), n + 1);
    }
    if !Loops(t, project, Some(id)) {
      var n: nat :| EndsIn(t, project, Some(id), n);
      forall m: nat | EndsIn(t, project, Some(id), m)
        ensures m > n - 1
      {
        EndsUnique(t, project, Some(id), m, n);
      }
      EndingWalk(t, project, t[id].parent, {id}, n - 1);
    }
  }

  // ----- keeping the forest -----

  /** What every tree operation amounts to: the cards of `moved` hang below `d`, the cards of
      `gone` stop being live, and no other live card changes its place. */
  ghost predicate Regrafts(t: Table, t': Table, moved: set<Id>, gone: set<Id>, project: string, d: Option<Id>)
  {
    && (forall x :: x in t' && t'[x].Live() && x !in moved ==>
          && x in t && t[x].Live() && t'[x].project == t[x].project && t'[x].parent == t[x].parent
          && (t[x].parent.Some? ==> t[x].parent.value !in gone))
    && (forall x :: x in t' && t'[x].Live() && x in moved ==> t'[x].project == project && t'[x].parent == d)
    && (forall x :: x in t && t[x].Live() && x !in gone ==> x in t' && t'[x].Live() && t'[x].project == t[x].project)
  }

  lemma {:induction false} ChainKept(t: Table, t': Table, moved: set<Id>, gone: set<Id>, project: string, d: Option<Id>,
                                     e: Option<Id>, n: nat)
    requires Regrafts(t, t', moved, gone, project, d) && Anchored(t, project, e, moved + gone, n)
    ensures Anchored(t', project, e, {}, n)
    decreases n
  {
    if e.Some? { ChainKept(t, t', moved, gone, project, d, t[e.value].parent, n - 1); }
  }

  lemma {:induction false} ChainMoved(t: Table, t': Table, moved: set<Id>, gone: set<Id>, project: string,
                                      d: Option<Id>,
                                      x: Id, n: nat)
    requires Regrafts(t, t', moved, gone, project, d) && Reachable(t, project, d, moved + gone)
    requires x in t' && t'[x].Live() && x !in moved && Anchored(t, t'[x].project, Some(x), {}, n)
    ensures Reachable(t', t'[x].project, Some(x), {})
    decreases n
  {
    var p := t[x].parent;
    if p.None? {
      assert Anchored(t', t'[x].project, Some(x), {}, 1);
    } else {
      assert t'[p.value].Live();
      if p.value in moved { GraftReachable(t, t', moved, gone, project, d, p.value); }
      else { ChainMoved(t, t', moved, gone, project, d, p.value, n - 1); }
      var m: nat :| Anchored(t', t'[x].project, p, {}, m);
      assert Anchored(t', t'[x].project, Some(x), {}, m + 1);
    }
  }

  lemma GraftReachable(t: Table, t': Table, moved: set<Id>, gone: set<Id>, project: string, d: Option<Id>, x: Id)
    requires Regrafts(t, t', moved, gone, project, d) && Reachable(t, project, d, moved + gone)
    requires x in t' && t'[x].Live() && x in moved
    ensures Reachable(t', t'[x].project, Some(x), {})
  {
    var n: nat :| Anchored(t, project, d, moved + gone, n);
    ChainKept(t, t', moved, gone, project, d, d, n);
    assert Anchored(t', project, Some(x), {}, n + 1);
  }

  /** Grafting onto a reachable card outside the moved and trashed ones keeps the forest. */
  lemma RegraftKeepsForest(t: Table, t': Table, moved: set<Id>, gone: set<Id>, project: string, d: Option<Id>)
    requires Forest(t) && Regrafts(t, t', moved, gone, project, d) && Reachable(t, project, d, moved + gone)
    ensures Forest(t')
  {
    forall x | x in t' && t'[x].Live()
      ensures Reachable(t', t'[x].project, Some(x), {})
    {
      if x in moved {
        GraftReachable(t, t', moved, gone, project, d, x);
      } else {
        var n: nat :| Anchored(t, t[x].project, Some(x), {}, n);
        ChainMoved(t, t', moved, gone, project, d, x, n);
      }
    }
  }
}

/** Whole-project repair: `plan_hierarchy_repair` of src/card/CardHierarchy.cpp and
    `CardStore::repair_hierarchy`. */
module Repair {
  import opened Common
  import opened Cards
  import opened Ancestry
  import opened Placement
  import opened Intents

  /** `moved` and `cycles` are reported in id order; the order is immaterial here. */
  datatype Plan = Plan(placements: seq<Card>, moved: set<Id>, cycles: set<Id>)

  // ----- what the plan is about -----

  predicate WalkLoops(t: Table, x: Id)
    requires x in t
  {
    WalkUp(t, t[x].project, t[x].parent, {x}).Loop?
  }

  /** A hidden branch head: a live card whose parent is missing or trashed and whose chain ends. */
  predicate IsHead(t: Table, project: string, x: Id)
  {
    && LiveIn(t, project, x) && t[x].parent.Some?
    && !WalkLoops(t, x) && !LiveIn(t, project, t[x].parent.value)
  }

  function Heads(t: Table, project: string): set<Id>
  {
    set x | x in t && IsHead(t, project, x)
  }

  /** Where a head goes: its nearest reachable ancestor, or the roots. */
  function Destination(t: Table, x: Id): Option<Id>
    requires x in t
  {
    var r := ReachableParent(t, t[x]);
    if r.Ok? then r.value else None
  }

  function Looping(t: Table, project: string): set<Id>
  {
    set x | x in t && LiveIn(t, project, x) && WalkLoops(t, x)
  }

  /** The card as repair leaves it, up to its key. */
  ghost predicate RepairedRow(t: Table, project: string, now: int, c: Card)
  {
    && LiveIn(t, project, c.id)
    && c == t[c.id].(key := c.key, updatedAt := now,
                     parent := if IsHead(t, project, c.id) then Destination(t, c.id) else t[c.id].parent)
  }

  /** A live card that keeps its parent. */
  predicate Stays(t: Table, project: string, x: Id)
  {
    LiveIn(t, project, x) && !IsHead(t, project, x)
  }

  // ----- where the cards stand -----

  /** A head with its destination and, if it has one, the hidden ancestor that sits among the
      destination's children. */
  datatype Head = Head(card: Card, dest: Option<Id>, anchor: Option<Card>)

  /** The anchor: the first ancestor whose own parent is the destination. */
  function AnchorOf(t: Table, project: string, start: Option<Id>, dest: Option<Id>, steps: nat): (anchor: Option<Card>)
    requires EndsIn(t, project, start, steps)
    ensures anchor.Some? ==> anchor.value.parent == dest
    decreases steps
  {
    if start.None? || !InProject(t, project, start.value) then None
    else if t[start.value].parent == dest then Some(t[start.value])
    else AnchorOf(t, project, t[start.value].parent, dest, steps - 1)
  }

  /** The anchor of a head. */
  ghost function Anchor(t: Table, project: string, x: Id): Option<Card>
    requires x in t
  {
    if steps: nat :| EndsIn(t, project, t[x].parent, steps)
    then AnchorOf(t, project, t[x].parent, Destination(t, x), steps) else None
  }

  predicate StaysBelow(t: Table, project: string, d: Option<Id>, x: Id)
  {
    Stays(t, project, x) && t[x].parent == d
  }

  predicate HeadTo(t: Table, project: string, d: Option<Id>, x: Id)
  {
    x in t && IsHead(t, project, x) && Destination(t, x) == d
  }

  ghost predicate SameAnchor(t: Table, project: string, x: Id, y: Id)
    requires x in t && y in t
  {
    var a, b := Anchor(t, project, x), Anchor(t, project, y);
    a.Some? == b.Some? && (a.Some? ==> a.value.id == b.value.id)
  }

  /** No head of the destination has an anchor with a smaller id, so this one is placed before
      any key has moved. */
  ghost predicate PlacedFirst(t: Table, project: string, d: Option<Id>, x: Id)
    requires x in t && Anchor(t, project, x).Some?
  {
    forall y :: HeadTo(t, project, d, y) && Anchor(t, project, y).Some? ==>
      !StrLess(Anchor(t, project, y).value.id, Anchor(t, project, x).value.id)
  }

  /** The sibling still has the key its order against this head's anchor is judged by. */
  ghost predicate Judged(t: Table, project: string, d: Option<Id>, written: set<Id>, sibling: Id, head: Id)
    requires head in t && Anchor(t, project, head).Some?
  {
    sibling !in written || PlacedFirst(t, project, d, head)
  }

  /** Below `d`, `x` has to stand before `y`, when the rows of `written` are rewritten: siblings
      and heads of one anchor keep their order, a head stands among the siblings where its anchor
      stood, and heads without one stand last. */
  ghost predicate Must(t: Table, project: string, d: Option<Id>, written: set<Id>, x: Id, y: Id)
  {
    || (StaysBelow(t, project, d, x) && StaysBelow(t, project, d, y) && TreeLess(t[x], t[y]))
    || (HeadTo(t, project, d, x) && HeadTo(t, project, d, y) && SameAnchor(t, project, x, y) && TreeLess(t[x], t[y]))
    || (HeadTo(t, project, d, y) && Anchor(t, project, y).None? && HasPlace(t, project, d, x))
    || (StaysBelow(t, project, d, x) && HeadTo(t, project, d, y) && AnchoredAfter(t, project, d, written, x, y))
    || (HeadTo(t, project, d, x) && StaysBelow(t, project, d, y) && AnchoredBefore(t, project, d, written, x, y))
  }

  /** Not a head without an anchor. */
  ghost predicate HasPlace(t: Table, project: string, d: Option<Id>, x: Id)
  {
    StaysBelow(t, project, d, x) || (HeadTo(t, project, d, x) && Anchor(t, project, x).Some?)
  }

  ghost predicate AnchoredAfter(t: Table, project: string, d: Option<Id>, written: set<Id>, sibling: Id, head: Id)
    requires head in t && sibling in t
  {
    var anchor := Anchor(t, project, head);
    anchor.Some? && Judged(t, project, d, written, sibling, head) && TreeLess(t[sibling], anchor.value)
  }

  ghost predicate AnchoredBefore(t: Table, project: string, d: Option<Id>, written: set<Id>, head: Id, sibling: Id)
    requires head in t && sibling in t
  {
    var anchor := Anchor(t, project, head);
    anchor.Some? && Judged(t, project, d, written, sibling, head) && !TreeLess(t[sibling], anchor.value)
  }

  /** Every card stands where it has to. */
  ghost predicate InPlace(t: Table, t': Table, project: string, written: set<Id>)
  {
    forall d, x, y :: Must(t, project, d, written, x, y) ==> x in t' && y in t' && TreeLess(t'[x], t'[y])
  }

  ghost predicate IsRepair(t: Table, project: string, now: int, plan: Plan)
  {
    && plan.moved == Heads(t, project) && plan.cycles == Looping(t, project)
    && DistinctIds(Elements(plan.placements))
    && (forall c :: c in plan.placements ==> RepairedRow(t, project, now, c))
    && (forall x :: x in plan.moved ==> exists c :: c in plan.placements && c.id == x)
    && (plan.moved == {} ==> plan.placements == [])
    && InPlace(t, SaveAll(t, plan.placements), project, IdSet(plan.placements))
  }

  function IdSet(cs: seq<Card>): set<Id>
  {
    set c | c in cs :: c.id
  }

  // ----- what applying it achieves -----

  ghost predicate Repaired(t: Table, t': Table, project: string)
  {
    && t'.Keys == t.Keys
    && forall x :: x in t ==>
         && t'[x].project == t[x].project && t'[x].Live() == t[x].Live()
         && t'[x].parent == if IsHead(t, project, x) then Destination(t, x) else t[x].parent
  }

  /** Repair is minimal: only branch heads change their parent, each to its destination. */
  lemma RepairRows(t: Table, project: string, now: int, plan: Plan)
    requires WellKeyed(t) && IsRepair(t, project, now, plan)
    ensures WellKeyed(SaveAll(t, plan.placements)) && Repaired(t, SaveAll(t, plan.placements), project)
  {
    var t' := SaveAll(t, plan.placements);
    hide WalkLoops, InPlace, SaveAll;
    assert forall c :: c in plan.placements ==> RepairedRow(t, project, now, c);
    SaveAllRows(t, plan.placements);
    forall x | x in t
      ensures t'[x].project == t[x].project && t'[x].Live() == t[x].Live()
      ensures t'[x].parent == if IsHead(t, project, x) then Destination(t, x) else t[x].parent
    {
      if c :| c in plan.placements && c.id == x {
        assert t'[c.id] == c;
      } else {
        assert x !in plan.moved;
      }
    }
  }

  /** A chain of live cards holds no head, so repair leaves it in place. */
  lemma {:induction false} LiveChainKept(t: Table, t': Table, project: string, d: Option<Id>, avoid: set<Id>, n: nat)
    requires Repaired(t, t', project) && Anchored(t, project, d, avoid, n)
    ensures Anchored(t', project, d, {}, n)
    decreases n
  {
    if d.Some? {
      assert !IsHead(t, project, d.value);
      LiveChainKept(t, t', project, t[d.value].parent, avoid, n - 1);
    }
  }

  lemma HeadReachable(t: Table, t': Table, project: string, x: Id)
    requires WellKeyed(t) && Repaired(t, t', project) && IsHead(t, project, x)
    ensures Reachable(t', project, Some(x), {})
  {
    ReachableParentSound(t, t[x]);
    var n: nat :| Anchored(t, project, Destination(t, x), {x}, n);
    LiveChainKept(t, t', project, Destination(t, x), {x}, n);
    assert Anchored(t', project, Some(x), {}, n + 1);
  }

  lemma {:induction false} EndingCardReachable(t: Table, t': Table, project: string, x: Id, n: nat)
    requires WellKeyed(t) && Repaired(t, t', project) && LiveIn(t, project, x) && EndsIn(t, project, Some(x), n)
    ensures Reachable(t', project, Some(x), {})
    decreases n
  {
    LoopExact(t, x);
    if IsHead(t, project, x) {
      HeadReachable(t, t', project, x);
    } else if t[x].parent.None? {
      assert Anchored(t', project, Some(x), {}, 1);
    } else {
      EndingCardReachable(t, t', project, t[x].parent.value, n - 1);
      var m: nat :| Anchored(t', project, t[x].parent, {}, m);
      assert Anchored(t', project, Some(x), {}, m + 1);
    }
  }

  /** Repair is complete: afterwards every live card whose chain does not run into a cycle is
      reachable from the roots. */
  lemma RepairComplete(t: Table, project: string, now: int, plan: Plan, x: Id)
    requires WellKeyed(t) && IsRepair(t, project, now, plan) && LiveIn(t, project, x)
    ensures Loops(t, project, Some(x)) || Reachable(SaveAll(t, plan.placements), project, Some(x), {})
  {
    hide IsRepair, SaveAll;
    RepairRows(t, project, now, plan);
    if !Loops(t, project, Some(x)) {
      var n: nat :| EndsIn(t, project, Some(x), n);
      EndingCardReachable(t, SaveAll(t, plan.placements), project, x, n);
    }
  }

  /** The reported cycle cards are exactly the live cards whose chain never ends. */
  lemma CyclesExact(t: Table, project: string, now: int, plan: Plan, x: Id)
    requires IsRepair(t, project, now, plan)
    ensures x in plan.cycles <==> LiveIn(t, project, x) && Loops(t, project, Some(x))
  {
    if x in t { LoopExact(t, x); }
  }

  /** Exactly the live cards whose parent is missing or trashed, and whose chain ends, are moved. */
  lemma HeadsExact(t: Table, project: string, now: int, plan: Plan, x: Id)
    requires IsRepair(t, project, now, plan)
    ensures x in plan.moved <==>
      && x in t && t[x].project == project && t[x].deletedAt.None? && t[x].parent.Some?
      && (t[x].parent.value !in t || t[t[x].parent.value].project != project ||
          t[t[x].parent.value].deletedAt.Some?)
      && !Loops(t, project, Some(x))
  {
    hide InPlace, RepairedRow, WalkUp, Loops;
    if x in t { LoopExact(t, x); }
  }

  /** `a` stands `k` steps up the chain, directly below `dest`, and nothing nearer does. */
  ghost predicate FirstBelow(t: Table, project: string, start: Option<Id>, dest: Option<Id>, k: nat, a: Id)
  {
    && Ancestor(t, project, start, k, a) && InProject(t, project, a) && t[a].parent == dest
    && forall j: nat, b :: j < k && Ancestor(t, project, start, j, b) && InProject(t, project, b) ==>
         t[b].parent != dest
  }

  /** The anchor is the nearest card up the chain that sits directly below the destination. */
  lemma {:induction false} AnchorExact(t: Table, project: string, start: Option<Id>, dest: Option<Id>, steps: nat)
    requires WellKeyed(t) && EndsIn(t, project, start, steps)
    ensures var anchor := AnchorOf(t, project, start, dest, steps);
      && (anchor.Some? ==> anchor.value.id in t && t[anchor.value.id] == anchor.value)
      && (anchor.Some? ==> exists k: nat :: FirstBelow(t, project, start, dest, k, anchor.value.id))
      && (anchor.None? ==> forall k: nat, a :: !FirstBelow(t, project, start, dest, k, a))
    decreases steps
  {
    var anchor := AnchorOf(t, project, start, dest, steps);
    if start.None? || !InProject(t, project, start.value) {
      assert forall k: nat, a :: Ancestor(t, project, start, k, a) ==> k == 0 && !InProject(t, project, a);
    } else if t[start.value].parent == dest {
      assert FirstBelow(t, project, start, dest, 0, start.value);
    } else {
      var next := t[start.value].parent;
      AnchorExact(t, project, next, dest, steps - 1);
      if anchor.Some? {
        var k: nat :| FirstBelow(t, project, next, dest, k, anchor.value.id);
        FirstBelowStep(t, project, start, dest, k + 1, anchor.value.id);
      }
      forall k: nat, a | anchor.None?
        ensures !FirstBelow(t, project, start, dest, k, a)
      {
        if k > 0 { FirstBelowStep(t, project, start, dest, k, a); }
      }
    }
  }

  lemma FirstBelowStep(t: Table, project: string, start: Option<Id>, dest: Option<Id>, k: nat, a: Id)
    requires k > 0 && start.Some? && InProject(t, project, start.value) && t[start.value].parent != dest
    ensures FirstBelow(t, project, start, dest, k, a) <==>
        FirstBelow(t, project, t[start.value].parent, dest, k - 1, a)
  {
    var next := t[start.value].parent;
    forall j: nat, b
      ensures j > 0 ==> Ancestor(t, project, start, j, b) == Ancestor(t, project, next, j - 1, b)
    {
    }
    forall j: nat, b
      ensures Ancestor(t, project, start, j + 1, b) == Ancestor(t, project, next, j, b)
    {
    }
  }

  lemma {:induction false} LoopKept(t: Table, t': Table, project: string, next: Option<Id>, n: nat)
    requires WellKeyed(t) && Repaired(t, t', project) && Loops(t, project, next)
    ensures !EndsIn(t', project, next, n)
    decreases n
  {
    LoopStep(t, project, next);
    if n > 0 {
      LoopExact(t, next.value);
      LoopKept(t, t', project, t[next.value].parent, n - 1);
    }
  }

  lemma LoopStep(t: Table, project: string, next: Option<Id>)
    requires Loops(t, project, next)
    ensures next.Some? && InProject(t, project, next.value) && Loops(t, project, t[next.value].parent)
  {
    assert !EndsIn(t, project, next, 0);
    forall m: nat
      ensures !EndsIn(t, project, t[next.value].parent, m)
    {
      assert !EndsIn(t, project, next, m + 1);
    }
  }

  lemma {:induction false} AnchoredEnds(t: Table, project: string, d: Option<Id>, avoid: set<Id>, n: nat)
    requires Anchored(t, project, d, avoid, n)
    ensures EndsIn(t, project, d, n)
    decreases n
  {
    if d.Some? { AnchoredEnds(t, project, t[d.value].parent, avoid, n - 1); }
  }

  /** One live card of the repaired table: it is no longer hidden, and it loops iff it did. */
  lemma SettledCard(t: Table, t': Table, project: string, x: Id)
    requires WellKeyed(t) && WellKeyed(t') && Repaired(t, t', project) && LiveIn(t, project, x)
    ensures !IsHead(t', project, x) && WalkLoops(t', x) == WalkLoops(t, x)
  {
    hide IsHead;
    LoopExact(t, x);
    LoopExact(t', x);
    if Loops(t, project, Some(x)) {
      forall n: nat
        ensures !EndsIn(t', project, Some(x), n)
      {
        LoopKept(t, t', project, Some(x), n);
      }
      LoopingIsNoHead(t', project, x);
    } else {
      var n: nat :| EndsIn(t, project, Some(x), n);
      EndingCardReachable(t, t', project, x, n);
      var m: nat :| Anchored(t', project, Some(x), {}, m);
      AnchoredEnds(t', project, Some(x), {}, m);
      AnchoredIsNoHead(t', project, x, m);
    }
  }

  lemma LoopingIsNoHead(t: Table, project: string, x: Id)
    requires x in t && WalkLoops(t, x)
    ensures !IsHead(t, project, x)
  {
  }

  lemma AnchoredIsNoHead(t: Table, project: string, x: Id, m: nat)
    requires Anchored(t, project, Some(x), {}, m)
    ensures !IsHead(t, project, x)
  {
    hide WalkLoops;
    if t[x].parent.Some? { assert Anchored(t, project, t[x].parent, {}, m - 1); }
  }

  /** Repair is idempotent: planning again moves nothing, writes nothing and reports the same
      cycles. */
  lemma RepairIdempotent(t: Table, project: string, now: int, plan: Plan, later: int, again: Plan)
    requires WellKeyed(t) && IsRepair(t, project, now, plan)
    requires IsRepair(SaveAll(t, plan.placements), project, later, again)
    ensures again.moved == {} && again.placements == [] && again.cycles == plan.cycles
  {
    var t' := SaveAll(t, plan.placements);
    RepairRows(t, project, now, plan);
    hide IsHead, WalkLoops, SaveAll, InPlace;
    forall x | x in t' && LiveIn(t', project, x)
      ensures !IsHead(t', project, x) && WalkLoops(t', x) == WalkLoops(t, x)
    {
      SettledCard(t, t', project, x);
    }
    forall x | x in Heads(t', project)
      ensures false
    {
      HeadIsLive(t', project, x);
    }
    assert again.moved == {};
    assert Looping(t', project) == Looping(t, project);
  }

  lemma HeadIsLive(t: Table, project: string, x: Id)
    requires IsHead(t, project, x)
    ensures x in t && LiveIn(t, project, x)
  {
  }

  // ----- what the order of a repair means -----

  /** Siblings that stay keep their order; heads that share an anchor keep theirs, and so do those
      without one, which come last. */
  lemma RepairOrder(t: Table, project: string, now: int, plan: Plan, d: Option<Id>, x: Id, y: Id)
    requires IsRepair(t, project, now, plan) && x in t && y in t && TreeLess(t[x], t[y])
    requires (StaysBelow(t, project, d, x) && StaysBelow(t, project, d, y)) ||
      (HeadTo(t, project, d, x) && HeadTo(t, project, d, y) && SameAnchor(t, project, x, y))
    ensures var t' := SaveAll(t, plan.placements); x in t' && y in t' && TreeLess(t'[x], t'[y])
  {
    hide IsHead, Destination, Anchor, TreeLess, SaveAll, RepairedRow;
    assert Must(t, project, d, IdSet(plan.placements), x, y);
  }

  lemma UnanchoredLast(t: Table, project: string, now: int, plan: Plan, d: Option<Id>, x: Id, y: Id)
    requires IsRepair(t, project, now, plan) && HeadTo(t, project, d, y) && Anchor(t, project, y).None?
    requires HasPlace(t, project, d, x)
    ensures var t' := SaveAll(t, plan.placements); x in t' && y in t' && TreeLess(t'[x], t'[y])
  {
    hide IsHead, Destination, Anchor, TreeLess, SaveAll, RepairedRow;
    assert Must(t, project, d, IdSet(plan.placements), x, y);
  }

  /** A branch returns to the place it held: every sibling whose row repair leaves alone stands
      before it exactly when it stood before the branch's anchor; for the branches of the anchor
      with the smallest id, and so whenever a destination has one anchor, every sibling does. */
  lemma BranchReturns(t: Table, project: string, now: int, plan: Plan, d: Option<Id>, head: Id, sibling: Id)
    requires IsRepair(t, project, now, plan) && HeadTo(t, project, d, head) && StaysBelow(t, project, d, sibling)
    requires Anchor(t, project, head).Some?
    requires sibling !in IdSet(plan.placements) || PlacedFirst(t, project, d, head)
    ensures var t' := SaveAll(t, plan.placements);
      && head in t' && sibling in t'
      && (TreeLess(t'[sibling], t'[head]) <==> TreeLess(t[sibling], Anchor(t, project, head).value))
  {
    hide IsHead, Destination, Anchor, TreeLess, SaveAll, RepairedRow, PlacedFirst;
    var t' := SaveAll(t, plan.placements);
    var written := IdSet(plan.placements);
    if TreeLess(t[sibling], Anchor(t, project, head).value) {
      assert AnchoredAfter(t, project, d, written, sibling, head);
      assert Must(t, project, d, written, sibling, head);
    } else {
      assert AnchoredBefore(t, project, d, written, head, sibling);
      assert Must(t, project, d, written, head, sibling);
      TreeLessOneWay(t'[head], t'[sibling]);
    }
  }

  lemma TreeLessOneWay(a: Card, b: Card)
    requires TreeLess(a, b)
    ensures !TreeLess(b, a)
  {
    assert Less(TreeOrder, a, b);
    LessAsymmetric(TreeOrder, a, b);
  }

  // ----- building the plan -----

  method FindAnchor(t: Table, project: string, start: Option<Id>, dest: Option<Id>, ghost steps: nat)
    returns (anchor: Option<Card>)
    requires EndsIn(t, project, start, steps)
    ensures anchor == AnchorOf(t, project, start, dest, steps)
  {
    var a := start;
    ghost var left := steps;
    while a.Some? && InProject(t, project, a.value)
      invariant EndsIn(t, project, a, left)
      invariant AnchorOf(t, project, a, dest, left) == AnchorOf(t, project, start, dest, steps)
      decreases left
    {
      if t[a.value].parent == dest {
        return Some(t[a.value]);
      }
      a := t[a.value].parent;
      left := left - 1;
    }
    return None;
  }

  /** One destination, its children and the heads placed among them so far. `changed` holds
      the rows to rewrite. */
  ghost predicate Group(t: Table, project: string, now: int, d: Option<Id>, placed: set<Id>,
                        list: seq<Card>, changed: map<Id, Card>)
  {
    && Sorted(TreeOrder, list)
    && (forall i, j :: 0 <= i < j < |list| ==> list[i].id != list[j].id)
    && (forall c :: c in list ==> GroupRow(t, project, now, d, placed, changed, c))
    && (forall x :: x in placed || (x in t && ChildOf(t[x], project, d)) ==> x in Ids(list))
    && (forall x :: x in changed ==> changed[x].id == x && changed[x] in list)
    && InOrder(t, project, d, changed.Keys, list)
  }

  /** A card of the list against its stored row. */
  ghost predicate GroupRow(t: Table, project: string, now: int, d: Option<Id>, placed: set<Id>,
                           changed: map<Id, Card>, c: Card)
  {
    && LiveIn(t, project, c.id) && c.parent == d
    && (c.id in placed || t[c.id].parent == d)
    && (c.id in placed ==> c.id in changed)
    && (if c.id in changed
        then changed[c.id] == c && c == t[c.id].(parent := d, key := c.key, updatedAt := now)
        else c == t[c.id])
  }

  /** Nobody stands behind a card it has to precede. */
  ghost predicate InOrder(t: Table, project: string, d: Option<Id>, written: set<Id>, list: seq<Card>)
  {
    forall i, j :: 0 <= i < j < |list| ==> !Must(t, project, d, written, list[j].id, list[i].id)
  }

  /** The block can go in at `at` without anybody standing behind a card it has to precede. */
  ghost predicate Fits(t: Table, project: string, d: Option<Id>, written: set<Id>, list: seq<Card>, at: nat,
                       block: seq<Card>)
    requires at <= |list|
  {
    && InOrder(t, project, d, written, block)
    && (forall k, j :: 0 <= k < at && 0 <= j < |block| ==> !Must(t, project, d, written, block[j].id, list[k].id))
    && (forall k, j :: at <= k < |list| && 0 <= j < |block| ==> !Must(t, project, d, written, list[k].id, block[j].id))
  }

  /** The more rows are rewritten, the less has to hold. */
  lemma MustLess(t: Table, project: string, d: Option<Id>, written: set<Id>, more: set<Id>, x: Id, y: Id)
    requires written <= more && Must(t, project, d, more, x, y)
    ensures Must(t, project, d, written, x, y)
  {
    hide StaysBelow, HeadTo, Anchor, TreeLess, SameAnchor, PlacedFirst;
  }

  function ById(cs: seq<Card>): (m: map<Id, Card>)
    ensures forall x :: x in m ==> m[x].id == x && m[x] in cs
    ensures forall c :: c in cs ==> c.id in m
  {
    if cs == [] then map[] else
      assert forall c :: c in cs <==> c == cs[0] || c in cs[1..];
      ById(cs[1..])[cs[0].id := cs[0]]
  }

  /** Rows of the table that hang elsewhere and can be placed below `d`. */
  ghost predicate Arriving(t: Table, project: string, d: Option<Id>, placed: set<Id>, block: seq<Card>)
  {
    && (forall b :: b in block ==> LiveIn(t, project, b.id) && t[b.id] == b && b.parent != d && b.id !in placed)
    && (forall i, j :: 0 <= i < j < |block| ==> block[i].id != block[j].id)
  }

  lemma GroupSpliceDistinct(t: Table, project: string, now: int, d: Option<Id>, placed: set<Id>, list: seq<Card>,
                            changed: map<Id, Card>, at: nat, block: seq<Card>)
    requires Group(t, project, now, d, placed, list, changed) && Arriving(t, project, d, placed, block) && at <= |list|
    ensures var s := Spliced(list, at, block, d); forall i, j :: 0 <= i < j < |s| ==> s[i].id != s[j].id
  {
    var s := Spliced(list, at, block, d);
    forall i | 0 <= i < |s|
      ensures i < at ==> s[i] == list[i] && s[i] in list
      ensures at <= i < at + |block| ==> s[i] == block[i - at].(parent := d) && block[i - at] in block
      ensures at + |block| <= i ==> s[i] == list[i - |block|] && s[i] in list
    {
    }
    hide Spliced;
    forall i, j | 0 <= i < j < |s|
      ensures s[i].id != s[j].id
    {
      if s[i] in list { assert GroupRow(t, project, now, d, placed, changed, s[i]); }
      if s[j] in list { assert GroupRow(t, project, now, d, placed, changed, s[j]); }
    }
  }

  /** The rewritten rows, by id, are the touched positions. */
  lemma ChangedById(s: seq<Card>, at: nat, blockEnd: nat, now: int, p: Placed, i: nat)
    requires IsPlacement(s, at, blockEnd, now, p) && i < |p.list|
    requires forall k, l :: 0 <= k < l < |p.list| ==> p.list[k].id != p.list[l].id
    ensures p.list[i].id in ById(p.changed) <==> at <= i < blockEnd || p.list[i] != s[i]
    ensures p.list[i].id in ById(p.changed) ==> ById(p.changed)[p.list[i].id] == p.list[i]
  {
    var c := p.list[i];
    if c.id in ById(p.changed) {
      var e := ById(p.changed)[c.id];
      assert Touched(s, at, blockEnd, p.list, e);
      var k :| 0 <= k < |p.list| && p.list[k] == e && (at <= k < blockEnd || p.list[k] != s[k]);
      assert k == i;
    }
  }

  /** The card at one position after a block is placed. */
  lemma GroupRowAt(t: Table, project: string, now: int, d: Option<Id>, placed: set<Id>, list: seq<Card>,
                   changed: map<Id, Card>, at: nat, block: seq<Card>, p: Placed, i: nat)
    requires Group(t, project, now, d, placed, list, changed) && Arriving(t, project, d, placed, block) && at <= |list|
    requires IsPlacement(Spliced(list, at, block, d), at, at + |block|, now, p) && i < |p.list|
    requires forall k, l :: 0 <= k < l < |p.list| ==> p.list[k].id != p.list[l].id
    ensures GroupRow(t, project, now, d, placed + IdSet(block), changed + ById(p.changed), p.list[i])
  {
    hide *;
    var s := Spliced(list, at, block, d);
    var c := p.list[i];
    PlacementAt(s, at, at + |block|, now, p, i);
    ChangedById(s, at, at + |block|, now, p, i);
    SplicedPosition(list, at, block, d, i);
    if at <= i < at + |block| {
      ArrivingRow(t, project, d, placed, block, i - at);
      RowPlaced(t, project, now, d, placed, changed, IdSet(block), ById(p.changed), block[i - at], c);
    } else {
      var o := if i < at then list[i] else list[i - |block|];
      GroupHolds(t, project, now, d, placed, list, changed, o);
      OldNotArriving(t, project, now, d, placed, changed, block, o);
      RowKept(t, project, now, d, placed, changed, IdSet(block), ById(p.changed), o, c);
    }
  }

  lemma PlacementAt(s: seq<Card>, at: nat, blockEnd: nat, now: int, p: Placed, i: nat)
    requires IsPlacement(s, at, blockEnd, now, p) && i < |p.list|
    ensures |s| == |p.list| && (at <= i < blockEnd ==> p.list[i] == s[i].(key := p.list[i].key, updatedAt := now))
    ensures SameBut(s[i], p.list[i], now, at <= i < blockEnd)
  {
    assert SameBut(s[i], p.list[i], now, at <= i < blockEnd);
  }

  lemma SplicedPosition(list: seq<Card>, at: nat, block: seq<Card>, d: Option<Id>, i: nat)
    requires at <= |list| && i < |list| + |block|
    ensures var c := Spliced(list, at, block, d)[i];
      if at <= i < at + |block| then c == block[i - at].(parent := d)
      else var o := if i < at then list[i] else list[i - |block|]; c == o && o in list
  {
  }

  lemma ArrivingRow(t: Table, project: string, d: Option<Id>, placed: set<Id>, block: seq<Card>, k: nat)
    requires Arriving(t, project, d, placed, block) && k < |block|
    ensures var b := block[k]; LiveIn(t, project, b.id) && b.id in t && t[b.id] == b && b.id in IdSet(block)
  {
    assert block[k] in block;
  }

  lemma GroupHolds(t: Table, project: string, now: int, d: Option<Id>, placed: set<Id>, list: seq<Card>,
                   changed: map<Id, Card>, c: Card)
    requires Group(t, project, now, d, placed, list, changed) && c in list
    ensures GroupRow(t, project, now, d, placed, changed, c)
  {
  }

  lemma RowPlaced(t: Table, project: string, now: int, d: Option<Id>, placed: set<Id>, changed: map<Id, Card>,
                  more: set<Id>, rows: map<Id, Card>, b: Card, c: Card)
    requires LiveIn(t, project, b.id) && t[b.id] == b && b.id in more
    requires c == b.(parent := d, key := c.key, updatedAt := now) && b.id in rows && rows[b.id] == c
    ensures GroupRow(t, project, now, d, placed + more, changed + rows, c)
  {
  }

  lemma RowKept(t: Table, project: string, now: int, d: Option<Id>, placed: set<Id>, changed: map<Id, Card>,
                more: set<Id>, rows: map<Id, Card>, o: Card, c: Card)
    requires GroupRow(t, project, now, d, placed, changed, o) && o.id !in more && SameBut(o, c, now, false)
    requires (c.id in rows <==> c != o) && (c.id in rows ==> rows[c.id] == c)
    ensures GroupRow(t, project, now, d, placed + more, changed + rows, c)
  {
  }

  lemma OldNotArriving(t: Table, project: string, now: int, d: Option<Id>, placed: set<Id>,
                       changed: map<Id, Card>, block: seq<Card>, o: Card)
    requires GroupRow(t, project, now, d, placed, changed, o) && Arriving(t, project, d, placed, block)
    ensures o.id !in IdSet(block)
  {
  }

  /** The order holds on when a fitting block is placed. */
  lemma OrderStep(t: Table, project: string, d: Option<Id>, written: set<Id>, more: set<Id>, list: seq<Card>,
                  at: nat, block: seq<Card>, after: seq<Card>)
    requires at <= |list| && |after| == |list| + |block| && written <= more
    requires InOrder(t, project, d, written, list) && Fits(t, project, d, written, list, at, block)
    requires forall i :: 0 <= i < |after| ==> after[i].id == Spliced(list, at, block, d)[i].id
    ensures InOrder(t, project, d, more, after)
  {
    hide Must, Spliced;
    forall i, j | 0 <= i < j < |after|
      ensures !Must(t, project, d, more, after[j].id, after[i].id)
    {
      SplicedPosition(list, at, block, d, i);
      SplicedPosition(list, at, block, d, j);
      if Must(t, project, d, more, after[j].id, after[i].id) {
        MustLess(t, project, d, written, more, after[j].id, after[i].id);
      }
    }
  }

  /** Placing one more block keeps the group in order. */
  lemma GroupStep(a: Arithmetic, t: Table, project: string, now: int, d: Option<Id>, placed: set<Id>, list: seq<Card>,
                  changed: map<Id, Card>, at: nat, block: seq<Card>, p: Placed)
    requires Group(t, project, now, d, placed, list, changed) && Arriving(t, project, d, placed, block) && at <= |list|
    requires InsertBlock(a, list, at, block, d, now) == Ok(p) && Fits(t, project, d, changed.Keys, list, at, block)
    ensures Group(t, project, now, d, placed + IdSet(block), p.list, changed + ById(p.changed))
  {
    hide *;
    var s := Spliced(list, at, block, d);
    var placed', changed' := placed + IdSet(block), changed + ById(p.changed);
    GroupParts(t, project, now, d, placed, list, changed);
    InsertBlockPlaces(a, list, at, block, d, now);
    GroupSpliceDistinct(t, project, now, d, placed, list, changed, at, block);
    PlacedIds(s, at, at + |block|, now, p);
    forall c | c in p.list
      ensures GroupRow(t, project, now, d, placed', changed', c)
    {
      var i :| 0 <= i < |p.list| && p.list[i] == c;
      GroupRowAt(t, project, now, d, placed, list, changed, at, block, p, i);
    }
    GroupCovers(t, project, now, d, placed, list, changed, at, block, p);
    GroupChanged(t, project, now, d, placed, list, changed, at, block, p);
    OrderStep(t, project, d, changed.Keys, changed'.Keys, list, at, block, p.list);
    GroupIf(t, project, now, d, placed', p.list, changed');
  }

  lemma GroupParts(t: Table, project: string, now: int, d: Option<Id>, placed: set<Id>, list: seq<Card>,
                   changed: map<Id, Card>)
    requires Group(t, project, now, d, placed, list, changed)
    ensures Sorted(TreeOrder, list) && InOrder(t, project, d, changed.Keys, list)
  {
    hide Sorted, InOrder, GroupRow;
  }

  lemma GroupIf(t: Table, project: string, now: int, d: Option<Id>, placed: set<Id>, list: seq<Card>,
                changed: map<Id, Card>)
    requires Sorted(TreeOrder, list) && InOrder(t, project, d, changed.Keys, list)
    requires forall i, j :: 0 <= i < j < |list| ==> list[i].id != list[j].id
    requires forall c :: c in list ==> GroupRow(t, project, now, d, placed, changed, c)
    requires forall x :: x in placed || (x in t && ChildOf(t[x], project, d)) ==> x in Ids(list)
    requires forall x :: x in changed ==> changed[x].id == x && changed[x] in list
    ensures Group(t, project, now, d, placed, list, changed)
  {
    hide Sorted, InOrder, GroupRow, ChildOf;
  }

  /** A placement keeps the ids in their positions. */
  lemma PlacedIds(s: seq<Card>, at: nat, blockEnd: nat, now: int, p: Placed)
    requires IsPlacement(s, at, blockEnd, now, p)
    requires forall i, j :: 0 <= i < j < |s| ==> s[i].id != s[j].id
    ensures |p.list| == |s| && Ids(p.list) == Ids(s) && forall i :: 0 <= i < |s| ==> p.list[i].id == s[i].id
    ensures forall i, j :: 0 <= i < j < |p.list| ==> p.list[i].id != p.list[j].id
  {
    hide SameBut, Touched;
    forall i | 0 <= i < |s|
      ensures p.list[i].id == s[i].id
    {
      SameButId(s[i], p.list[i], now, at <= i < blockEnd);
    }
  }

  lemma SameButId(a: Card, b: Card, now: int, inBlock: bool)
    requires SameBut(a, b, now, inBlock)
    ensures a.id == b.id
  {
  }

  lemma GroupCovers(t: Table, project: string, now: int, d: Option<Id>, placed: set<Id>, list: seq<Card>,
                    changed: map<Id, Card>, at: nat, block: seq<Card>, p: Placed)
    requires Group(t, project, now, d, placed, list, changed) && at <= |list|
    requires Ids(p.list) == Ids(Spliced(list, at, block, d))
    ensures forall x :: x in placed + IdSet(block) || (x in t && ChildOf(t[x], project, d)) ==> x in Ids(p.list)
  {
    hide GroupRow, InOrder, Sorted;
    SplicedIds(list, at, block, d);
    assert list == list[..at] + list[at..];
    assert Ids(list) == Ids(list[..at]) + Ids(list[at..]);
    forall x | x in IdSet(block)
      ensures x in Ids(block)
    {
      var b :| b in block && b.id == x;
      var i :| 0 <= i < |block| && block[i] == b;
      assert Ids(block)[i] == x;
    }
  }

  lemma GroupChanged(t: Table, project: string, now: int, d: Option<Id>, placed: set<Id>, list: seq<Card>,
                     changed: map<Id, Card>, at: nat, block: seq<Card>, p: Placed)
    requires Group(t, project, now, d, placed, list, changed) && at <= |list|
    requires IsPlacement(Spliced(list, at, block, d), at, at + |block|, now, p)
    ensures forall x :: x in changed + ById(p.changed) ==>
        (changed + ById(p.changed))[x].id == x && (changed + ById(p.changed))[x] in p.list
  {
    hide *;
    forall x | x in changed + ById(p.changed)
      ensures (changed + ById(p.changed))[x].id == x && (changed + ById(p.changed))[x] in p.list
    {
      if x in ById(p.changed) {
        NewlyChanged(Spliced(list, at, block, d), at, at + |block|, now, p, x);
      } else {
        StillChanged(t, project, now, d, placed, list, changed, at, block, p, x);
      }
    }
  }

  lemma NewlyChanged(s: seq<Card>, at: nat, blockEnd: nat, now: int, p: Placed, x: Id)
    requires IsPlacement(s, at, blockEnd, now, p) && x in ById(p.changed)
    ensures ById(p.changed)[x].id == x && ById(p.changed)[x] in p.list
  {
    hide ById, SameBut;
    assert Touched(s, at, blockEnd, p.list, ById(p.changed)[x]);
  }

  lemma StillChanged(t: Table, project: string, now: int, d: Option<Id>, placed: set<Id>, list: seq<Card>,
                     changed: map<Id, Card>, at: nat, block: seq<Card>, p: Placed, x: Id)
    requires Group(t, project, now, d, placed, list, changed) && at <= |list| && x in changed
    requires IsPlacement(Spliced(list, at, block, d), at, at + |block|, now, p) && x !in ById(p.changed)
    ensures changed[x].id == x && changed[x] in p.list
  {
    hide GroupRow, InOrder, Sorted, ById, Spliced;
    var s := Spliced(list, at, block, d);
    var c := changed[x];
    var k :| 0 <= k < |list| && list[k] == c;
    var i := if k < at then k else k + |block|;
    SplicedPosition(list, at, block, d, i);
    assert s[i] == c;
    assert SameBut(s[i], p.list[i], now, at <= i < at + |block|);
    assert p.list[i].id == x;
  }

  /** Heads of one destination, with their anchors. */
  ghost predicate HeadsFor(t: Table, project: string, d: Option<Id>, heads: map<Id, Head>)
  {
    forall x :: x in heads ==>
      && HeadTo(t, project, d, x) && heads[x].card == t[x] && heads[x].dest == d
      && heads[x].anchor == Anchor(t, project, x)
  }

  /** A destination is no head's old parent: it is the roots or a live card. */
  lemma HeadElsewhere(t: Table, project: string, x: Id)
    requires WellKeyed(t) && IsHead(t, project, x)
    ensures LiveIn(t, project, x) && t[x].parent != Destination(t, x)
  {
    ReachableParentSound(t, t[x]);
    var d := Destination(t, x);
    if d.Some? {
      var n: nat :| Anchored(t, project, d, {x}, n);
      assert LiveIn(t, project, d.value);
    }
  }

  /** The cards of some heads, in tree order. */
  method HeadBlock(t: Table, project: string, d: Option<Id>, placed: set<Id>, heads: map<Id, Head>, chosen: set<Id>)
    returns (block: seq<Card>)
    requires WellKeyed(t) && HeadsFor(t, project, d, heads) && chosen <= heads.Keys && chosen !! placed
    ensures Arriving(t, project, d, placed, block) && IdSet(block) == chosen && Sorted(TreeOrder, block)
  {
    hide *;
    var cards := set x | x in chosen :: heads[x].card;
    HeadCards(t, project, d, heads, chosen);
    block := SortCards(TreeOrder, cards);
    BlockArrives(t, project, d, placed, heads, chosen, block);
  }

  lemma HeadCards(t: Table, project: string, d: Option<Id>, heads: map<Id, Head>, chosen: set<Id>)
    requires WellKeyed(t) && HeadsFor(t, project, d, heads) && chosen <= heads.Keys
    ensures DistinctIds(set x | x in chosen :: heads[x].card)
    ensures forall x :: x in chosen ==>
        x in t && LiveIn(t, project, x) && t[x].parent != d && heads[x].card == t[x] && t[x].id == x
  {
    hide IsHead, Destination, ReachableParent, Anchor;
    forall x | x in chosen
      ensures x in t && LiveIn(t, project, x) && t[x].parent != d && heads[x].card == t[x] && t[x].id == x
    {
      HeadElsewhere(t, project, x);
    }
  }

  lemma BlockArrives(t: Table, project: string, d: Option<Id>, placed: set<Id>, heads: map<Id, Head>, chosen: set<Id>,
                     block: seq<Card>)
    requires chosen <= heads.Keys && chosen !! placed
    requires forall x :: x in chosen ==>
        x in t && LiveIn(t, project, x) && t[x].parent != d && heads[x].card == t[x] && t[x].id == x
    requires DistinctIds(set x | x in chosen :: heads[x].card)
    requires block == SortSet(TreeOrder, set x | x in chosen :: heads[x].card)
    ensures Arriving(t, project, d, placed, block) && IdSet(block) == chosen
  {
    hide SortSet, Less, LiveIn;
    var cards := set x | x in chosen :: heads[x].card;
    assert forall c :: c in block <==> c in Elements(block);
    forall i, j | 0 <= i < j < |block|
      ensures block[i].id != block[j].id
    {
      assert block[i] in block && block[j] in block;
      if block[i].id == block[j].id { SortedDistinct(TreeOrder, block, i, j); }
    }
    forall x | x in chosen
      ensures x in IdSet(block)
    {
      assert heads[x].card in cards;
    }
  }

  /** Heads are placed anchor by anchor, smallest id first. */
  ghost predicate AnchorsInTurn(heads: map<Id, Head>, anchored: set<Id>, placed: set<Id>)
  {
    && placed <= anchored <= heads.Keys && (forall x :: x in anchored <==> x in heads && heads[x].anchor.Some?)
    && forall x, y :: x in placed && y in anchored && y !in placed ==>
         StrLess(heads[x].anchor.value.id, heads[y].anchor.value.id)
  }

  /** The heads still to be placed that share the anchor of `x`. */
  function OfAnchor(heads: map<Id, Head>, anchored: set<Id>, placed: set<Id>, x: Id): (r: set<Id>)
    requires anchored <= heads.Keys && x in anchored && forall y :: y in anchored ==> heads[y].anchor.Some?
    ensures r <= anchored && r !! placed && (x !in placed ==> x in r)
  {
    set y | y in anchored && y !in placed && heads[y].anchor.value.id == heads[x].anchor.value.id
  }

  method LeastAnchor(heads: map<Id, Head>, todo: set<Id>) returns (least: Id)
    requires todo <= heads.Keys && todo != {} && forall x :: x in todo ==> heads[x].anchor.Some?
    ensures least in todo
    ensures forall x :: x in todo ==> !StrLess(heads[x].anchor.value.id, heads[least].anchor.value.id)
  {
    least :| least in todo;
    var left := todo - {least};
    StrLessIrreflexive(heads[least].anchor.value.id);
    while left != {}
      invariant left <= todo && least in todo
      invariant forall x :: x in todo && x !in left ==> !StrLess(heads[x].anchor.value.id, heads[least].anchor.value.id)
    {
      var x :| x in left;
      if StrLess(heads[x].anchor.value.id, heads[least].anchor.value.id) {
        forall y | y in todo && y !in left - {x}
          ensures !StrLess(heads[y].anchor.value.id, heads[x].anchor.value.id)
        {
          StrLessIrreflexive(heads[x].anchor.value.id);
          if StrLess(heads[y].anchor.value.id, heads[x].anchor.value.id) {
            StrLessTransitive(heads[y].anchor.value.id, heads[x].anchor.value.id, heads[least].anchor.value.id);
          }
        }
        least := x;
      }
      left := left - {x};
    }
  }

  /** The heads of the least anchor, taken in turn. */
  lemma NextTurn(heads: map<Id, Head>, anchored: set<Id>, placed: set<Id>, x: Id, chosen: set<Id>)
    requires AnchorsInTurn(heads, anchored, placed) && x in anchored && x !in placed
    requires forall y :: y in anchored && y !in placed ==> !StrLess(heads[y].anchor.value.id, heads[x].anchor.value.id)
    requires chosen == OfAnchor(heads, anchored, placed, x)
    ensures AnchorsInTurn(heads, anchored, placed + chosen)
  {
    forall y | y in anchored && y !in placed + chosen
      ensures StrLess(heads[x].anchor.value.id, heads[y].anchor.value.id)
    {
      StrLessTotal(heads[x].anchor.value.id, heads[y].anchor.value.id);
    }
  }

  // ----- the placement as a function of the input -----

  /** The heads of one anchor, or those without one, in tree order. */
  datatype Block = Block(anchor: Option<Card>, cards: seq<Card>)

  /** The children of a destination with the blocks placed among them, and the rows rewritten. */
  datatype Arranged = Arranged(list: seq<Card>, written: set<Id>)

  function PlaceFor(list: seq<Card>, anchor: Option<Card>): (at: nat)
    ensures at <= |list|
  {
    if anchor.Some? then LowerBound(TreeOrder, list, anchor.value) else |list|
  }

  /** The blocks placed one after the other. */
  function Arrange(a: Arithmetic, now: int, d: Option<Id>, list: seq<Card>, blocks: seq<Block>): Result<Arranged>
    decreases |blocks|
  {
    if blocks == [] then Ok(Arranged(list, {}))
    else
      var b := blocks[|blocks| - 1];
      var before := Arrange(a, now, d, list, blocks[..|blocks| - 1]);
      if before.Err? then before
      else
        var p := InsertBlock(a, before.value.list, PlaceFor(before.value.list, b.anchor), b.cards, d, now);
        if p.Err? then Err(p.error)
        else Ok(Arranged(p.value.list, before.value.written + IdSet(p.value.changed)))
  }

  lemma ArrangeNext(a: Arithmetic, now: int, d: Option<Id>, list: seq<Card>, blocks: seq<Block>, b: Block)
    ensures Arrange(a, now, d, list, []) == Ok(Arranged(list, {}))
    ensures Arrange(a, now, d, list, blocks).Ok? ==>
      var before := Arrange(a, now, d, list, blocks).value;
      var p := InsertBlock(a, before.list, PlaceFor(before.list, b.anchor), b.cards, d, now);
      Arrange(a, now, d, list, blocks + [b]) ==
        if p.Err? then Err(p.error) else Ok(Arranged(p.value.list, before.written + IdSet(p.value.changed)))
  {
    hide InsertBlock, PlaceFor;
    assert (blocks + [b])[..|blocks|] == blocks;
  }

  ghost predicate OfBlock(t: Table, project: string, heads: set<Id>, anchor: Option<Card>, c: Card)
  {
    c.id in heads && c.id in t && t[c.id] == c && Anchor(t, project, c.id) == anchor
  }

  ghost predicate WholeBlock(t: Table, project: string, heads: set<Id>, b: Block)
  {
    Sorted(TreeOrder, b.cards) && forall c :: c in b.cards <==> OfBlock(t, project, heads, b.anchor, c)
  }

  ghost predicate InSomeBlock(t: Table, project: string, blocks: seq<Block>, x: Id)
  {
    x in t && exists i :: 0 <= i < |blocks| && blocks[i].anchor == Anchor(t, project, x)
  }

  /** Blocks of anchored heads: one for each anchor, in the order of the anchors' ids. */
  ghost predicate AnchoredBlocks(t: Table, project: string, heads: set<Id>, blocks: seq<Block>)
  {
    && (forall i :: 0 <= i < |blocks| ==>
          blocks[i].anchor.Some? && blocks[i].cards != [] && WholeBlock(t, project, heads, blocks[i]))
    && (forall i, j :: 0 <= i < j < |blocks| ==> StrLess(blocks[i].anchor.value.id, blocks[j].anchor.value.id))
    && (forall x :: x in heads ==> InSomeBlock(t, project, blocks, x))
  }

  /** All blocks of a destination: the anchored ones, and then the heads without an anchor. */
  ghost predicate BlocksOf(t: Table, project: string, heads: set<Id>, blocks: seq<Block>)
  {
    && blocks != [] && blocks[|blocks| - 1].anchor.None? && WholeBlock(t, project, heads, blocks[|blocks| - 1])
    && AnchoredBlocks(t, project, WithAnchor(t, project, heads), blocks[..|blocks| - 1])
  }

  ghost function WithAnchor(t: Table, project: string, heads: set<Id>): set<Id>
  {
    set x | x in heads && x in t && Anchor(t, project, x).Some?
  }

  /** Some of the anchored heads: those of the least anchors. */
  ghost predicate FirstHeads(t: Table, project: string, heads: set<Id>, placed: set<Id>)
  {
    && placed <= WithAnchor(t, project, heads)
    && forall x, y :: x in placed && y in WithAnchor(t, project, heads) - placed ==>
         StrLess(Anchor(t, project, x).value.id, Anchor(t, project, y).value.id)
  }

  ghost predicate FirstBlocks(t: Table, project: string, heads: set<Id>, blocks: seq<Block>)
  {
    exists placed :: FirstHeads(t, project, heads, placed) && AnchoredBlocks(t, project, placed, blocks)
  }

  /** Why a destination fails: its blocks, placed in turn up to one of them, run out of keys. */
  ghost predicate OutOfKeys(a: Arithmetic, t: Table, project: string, now: int, d: Option<Id>, heads: set<Id>,
                            blocks: seq<Block>)
    requires WellKeyed(t)
  {
    && Arrange(a, now, d, Siblings(t, project, d), blocks).Err?
    && (BlocksOf(t, project, heads, blocks) || FirstBlocks(t, project, heads, blocks))
  }

  lemma FirstOutOfKeys(a: Arithmetic, t: Table, project: string, now: int, d: Option<Id>, heads: map<Id, Head>,
                       anchored: set<Id>, placed: set<Id>, blocks: seq<Block>)
    requires WellKeyed(t) && HeadsFor(t, project, d, heads) && AnchorsInTurn(heads, anchored, placed)
    requires AnchoredBlocks(t, project, placed, blocks)
    requires Arrange(a, now, d, Siblings(t, project, d), blocks).Err?
    ensures OutOfKeys(a, t, project, now, d, heads.Keys, blocks)
  {
    hide HeadTo, Anchor, AnchoredBlocks, Arrange, Siblings, BlocksOf, StrLess;
    forall x | x in heads
      ensures x in t && heads[x].anchor == Anchor(t, project, x)
    {
      HeadStored(t, project, d, x);
    }
    assert anchored == WithAnchor(t, project, heads.Keys);
    assert FirstHeads(t, project, heads.Keys, placed);
  }

  lemma AllOutOfKeys(a: Arithmetic, t: Table, project: string, now: int, d: Option<Id>, heads: set<Id>,
                     blocks: seq<Block>)
    requires WellKeyed(t) && BlocksOf(t, project, heads, blocks)
    requires Arrange(a, now, d, Siblings(t, project, d), blocks).Err?
    ensures OutOfKeys(a, t, project, now, d, heads, blocks)
  {
    hide BlocksOf, Arrange, Siblings, FirstBlocks;
  }

  lemma NoBlocks(t: Table, project: string)
    ensures AnchoredBlocks(t, project, {}, [])
  {
  }

  /** The cards of a block of heads are exactly the heads of its anchor. */
  lemma BlockOfAnchor(t: Table, project: string, d: Option<Id>, heads: map<Id, Head>, anchored: set<Id>,
                      placed: set<Id>,
                      x: Id, block: seq<Card>)
    requires WellKeyed(t) && HeadsFor(t, project, d, heads) && AnchorsInTurn(heads, anchored, placed)
    requires x in anchored && x !in placed && Sorted(TreeOrder, block) && Arriving(t, project, d, placed, block)
    requires IdSet(block) == OfAnchor(heads, anchored, placed, x)
    ensures WholeBlock(t, project, placed + IdSet(block), Block(heads[x].anchor, block)) && block != []
  {
    hide HeadTo, Anchor;
    AnchoredBlock(t, project, d, heads, anchored, placed, x, block);
    forall c
      ensures c in block <==> OfBlock(t, project, placed + IdSet(block), heads[x].anchor, c)
    {
      if c in block {
        var j :| 0 <= j < |block| && block[j] == c;
        assert c.id in IdSet(block);
      }
      if OfBlock(t, project, placed + IdSet(block), heads[x].anchor, c) {
        if c.id in placed { EarlierAnchor(t, project, d, heads, anchored, placed, c.id, x); }
        var e :| e in block && e.id == c.id;
        var j :| 0 <= j < |block| && block[j] == e;
      }
    }
    assert x in IdSet(block);
  }

  lemma EarlierAnchor(t: Table, project: string, d: Option<Id>, heads: map<Id, Head>, anchored: set<Id>,
                      placed: set<Id>,
                      y: Id, x: Id)
    requires HeadsFor(t, project, d, heads) && AnchorsInTurn(heads, anchored, placed)
    requires y in placed && x in anchored && x !in placed && y in t
    ensures Anchor(t, project, y).Some? && heads[x].anchor.Some?
    ensures StrLess(Anchor(t, project, y).value.id, heads[x].anchor.value.id)
    ensures Anchor(t, project, y) != heads[x].anchor
  {
    hide HeadTo, Anchor;
    StrLessIrreflexive(heads[x].anchor.value.id);
  }

  /** One more block, of the next anchor in turn. */
  lemma NextBlock(t: Table, project: string, d: Option<Id>, heads: map<Id, Head>, anchored: set<Id>, placed: set<Id>,
                  blocks: seq<Block>, x: Id, block: seq<Card>)
    requires WellKeyed(t) && HeadsFor(t, project, d, heads) && AnchorsInTurn(heads, anchored, placed)
    requires x in anchored && x !in placed && Sorted(TreeOrder, block) && Arriving(t, project, d, placed, block)
    requires IdSet(block) == OfAnchor(heads, anchored, placed, x) && AnchoredBlocks(t, project, placed, blocks)
    ensures AnchoredBlocks(t, project, placed + IdSet(block), blocks + [Block(heads[x].anchor, block)])
  {
    hide *;
    TurnAnchor(t, project, d, heads, anchored, placed, x);
    var more, placed' := blocks + [Block(heads[x].anchor, block)], placed + IdSet(block);
    BlockOfAnchor(t, project, d, heads, anchored, placed, x, block);
    forall i | 0 <= i < |blocks|
      ensures blocks[i].anchor.Some? && blocks[i].cards != [] && WholeBlock(t, project, placed', blocks[i])
      ensures StrLess(blocks[i].anchor.value.id, heads[x].anchor.value.id)
    {
      OlderBlock(t, project, d, heads, anchored, placed, blocks, x, block, i);
    }
    forall y | y in placed'
      ensures InSomeBlock(t, project, more, y)
    {
      SomeBlock(t, project, d, heads, anchored, placed, blocks, x, block, y);
    }
    BlocksPairs(t, project, placed, blocks);
    AnchoredBlocksIf(t, project, placed', more);
  }

  lemma OlderBlock(t: Table, project: string, d: Option<Id>, heads: map<Id, Head>, anchored: set<Id>, placed: set<Id>,
                   blocks: seq<Block>, x: Id, block: seq<Card>, i: nat)
    requires WellKeyed(t) && HeadsFor(t, project, d, heads) && AnchorsInTurn(heads, anchored, placed)
    requires x in anchored && x !in placed && Arriving(t, project, d, placed, block)
    requires IdSet(block) == OfAnchor(heads, anchored, placed, x) && AnchoredBlocks(t, project, placed, blocks)
    requires i < |blocks|
    ensures heads[x].anchor.Some?
    ensures blocks[i].anchor.Some? && blocks[i].cards != [] && WholeBlock(t, project, placed + IdSet(block), blocks[i])
    ensures StrLess(blocks[i].anchor.value.id, heads[x].anchor.value.id)
  {
    hide HeadTo, Anchor, HeadsFor, AnchorsInTurn, Arriving, OfAnchor;
    var c := blocks[i].cards[0];
    assert c in blocks[i].cards && OfBlock(t, project, placed, blocks[i].anchor, c);
    EarlierAnchor(t, project, d, heads, anchored, placed, c.id, x);
    forall e
      ensures OfBlock(t, project, placed + IdSet(block), blocks[i].anchor, e) <==>
        OfBlock(t, project, placed, blocks[i].anchor, e)
    {
      if e.id in IdSet(block) {
        AnchoredBlock(t, project, d, heads, anchored, placed, x, block);
        var b :| b in block && b.id == e.id;
        var j :| 0 <= j < |block| && block[j] == b;
      }
    }
  }

  lemma SomeBlock(t: Table, project: string, d: Option<Id>, heads: map<Id, Head>, anchored: set<Id>, placed: set<Id>,
                  blocks: seq<Block>, x: Id, block: seq<Card>, y: Id)
    requires WellKeyed(t) && HeadsFor(t, project, d, heads) && AnchorsInTurn(heads, anchored, placed)
    requires x in anchored && Arriving(t, project, d, placed, block) && y in placed + IdSet(block)
    requires IdSet(block) == OfAnchor(heads, anchored, placed, x) && AnchoredBlocks(t, project, placed, blocks)
    ensures InSomeBlock(t, project, blocks + [Block(heads[x].anchor, block)], y)
  {
    hide HeadTo, Anchor, HeadsFor, AnchorsInTurn, Arriving, OfAnchor, WholeBlock;
    TurnAnchor(t, project, d, heads, anchored, placed, x);
    var more := blocks + [Block(heads[x].anchor, block)];
    if y in IdSet(block) {
      AnchoredBlock(t, project, d, heads, anchored, placed, x, block);
      var b :| b in block && b.id == y;
      var j :| 0 <= j < |block| && block[j] == b;
      assert more[|blocks|].anchor == Anchor(t, project, y);
    } else {
      assert InSomeBlock(t, project, blocks, y);
      var i :| 0 <= i < |blocks| && blocks[i].anchor == Anchor(t, project, y);
      assert more[i].anchor == Anchor(t, project, y);
    }
  }

  lemma BlocksPairs(t: Table, project: string, heads: set<Id>, blocks: seq<Block>)
    requires AnchoredBlocks(t, project, heads, blocks)
    ensures forall i :: 0 <= i < |blocks| ==> blocks[i].anchor.Some?
    ensures forall i, j :: 0 <= i < j < |blocks| ==> StrLess(blocks[i].anchor.value.id, blocks[j].anchor.value.id)
  {
    hide WholeBlock, InSomeBlock;
  }

  lemma AnchoredBlocksIf(t: Table, project: string, heads: set<Id>, blocks: seq<Block>)
    requires forall i :: 0 <= i < |blocks| ==>
      blocks[i].anchor.Some? && blocks[i].cards != [] && WholeBlock(t, project, heads, blocks[i])
    requires forall i, j :: 0 <= i < j < |blocks| ==> StrLess(blocks[i].anchor.value.id, blocks[j].anchor.value.id)
    requires forall x :: x in heads ==> InSomeBlock(t, project, blocks, x)
    ensures AnchoredBlocks(t, project, heads, blocks)
  {
    hide WholeBlock, InSomeBlock;
  }

  /** With the heads without an anchor the blocks are complete. */
  lemma LastBlock(t: Table, project: string, d: Option<Id>, heads: map<Id, Head>, anchored: set<Id>, blocks: seq<Block>,
                  block: seq<Card>)
    requires HeadsFor(t, project, d, heads) && AnchorsInTurn(heads, anchored, anchored)
    requires AnchoredBlocks(t, project, anchored, blocks) && IdSet(block) == heads.Keys - anchored
    requires Sorted(TreeOrder, block) && Arriving(t, project, d, anchored, block)
    ensures BlocksOf(t, project, heads.Keys, blocks + [Block(None, block)])
  {
    hide HeadTo, Anchor, AnchoredBlocks, Sorted;
    UnanchoredBlock(t, project, d, heads, anchored, block);
    forall x | x in heads
      ensures x in t && heads[x].anchor == Anchor(t, project, x)
    {
      HeadStored(t, project, d, x);
    }
    assert anchored == WithAnchor(t, project, heads.Keys);
    assert (blocks + [Block(None, block)])[..|blocks|] == blocks;
    forall c
      ensures c in block <==> OfBlock(t, project, heads.Keys, None, c)
    {
      if c in block {
        var j :| 0 <= j < |block| && block[j] == c;
        assert c.id in IdSet(block);
      }
      if OfBlock(t, project, heads.Keys, None, c) {
        assert c.id in IdSet(block);
        var e :| e in block && e.id == c.id;
        var j :| 0 <= j < |block| && block[j] == e;
      }
    }
  }

  /** One destination: anchored heads first, each group where its anchor stood, the others last. */
  method PlaceGroup(a: Arithmetic, t: Table, project: string, now: int, d: Option<Id>, heads: map<Id, Head>)
    returns (r: Result<map<Id, Card>>, ghost list: seq<Card>, ghost blocks: seq<Block>)
    requires WellKeyed(t) && HeadsFor(t, project, d, heads)
    ensures r.Ok? ==> Group(t, project, now, d, heads.Keys, list, r.value)
    ensures r.Ok? ==> BlocksOf(t, project, heads.Keys, blocks)
    ensures r.Ok? ==> Arrange(a, now, d, Siblings(t, project, d), blocks) == Ok(Arranged(list, r.value.Keys))
    ensures Roomy(a) ==> r.Ok?
    ensures r.Err? ==> OutOfKeys(a, t, project, now, d, heads.Keys, blocks)
  {
    hide *;
    var siblings := ListSiblings(t, project, d);
    list, blocks := siblings, [];
    ghost var first := siblings;
    var changed: map<Id, Card> := map[];
    var placed: set<Id> := {};
    GroupStart(t, project, now, d);
    var anchored := set x | x in heads && heads[x].anchor.Some?;
    NoTurn(heads, anchored);
    NoBlocks(t, project);
    ArrangeNext(a, now, d, first, [], Block(None, []));
    assert changed.Keys == {};
    while anchored - placed != {}
      invariant AnchorsInTurn(heads, anchored, placed) && Group(t, project, now, d, placed, siblings, changed)
      invariant placed <= anchored <= heads.Keys && (placed == {} ==> changed == map[])
      invariant AnchoredBlocks(t, project, placed, blocks)
      invariant Arrange(a, now, d, first, blocks) == Ok(Arranged(siblings, changed.Keys))
      decreases anchored - placed
    {
      var x := LeastAnchor(heads, anchored - placed);
      var anchor := heads[x].anchor.value;
      var chosen := OfAnchor(heads, anchored, placed, x);
      var block := HeadBlock(t, project, d, placed, heads, chosen);
      var at := LowerBound(TreeOrder, siblings, anchor);
      AnchoredFits(t, project, now, d, heads, anchored, placed, siblings, changed, x, block, at);
      var p := InsertBlockInto(a, siblings, at, block, d, now);
      if Roomy(a) { RoomyPlaces(a, siblings, at, block, d, now); }
      NextTurn(heads, anchored, placed, x, chosen);
      NextBlock(t, project, d, heads, anchored, placed, blocks, x, block);
      ArrangeNext(a, now, d, first, blocks, Block(heads[x].anchor, block));
      PlaceForIs(siblings, heads[x].anchor);
      if p.Err? {
        blocks := blocks + [Block(heads[x].anchor, block)];
        FirstOutOfKeys(a, t, project, now, d, heads, anchored, placed + chosen, blocks);
        return Err(p.error), list, blocks;
      }
      GroupStep(a, t, project, now, d, placed, siblings, changed, at, block, p.value);
      ByIdKeys(p.value.changed);
      assert x in chosen;
      blocks := blocks + [Block(heads[x].anchor, block)];
      siblings, changed, placed := p.value.list, changed + ById(p.value.changed), placed + chosen;
    }
    assert forall x :: x in anchored ==> x in placed || x in anchored - placed;
    assert placed == anchored;
    var rest := heads.Keys - anchored;
    var block := HeadBlock(t, project, d, placed, heads, rest);
    UnanchoredFits(t, project, now, d, heads, anchored, siblings, changed, block);
    var p := InsertBlockInto(a, siblings, |siblings|, block, d, now);
    if Roomy(a) { RoomyPlaces(a, siblings, |siblings|, block, d, now); }
    LastBlock(t, project, d, heads, anchored, blocks, block);
    ArrangeNext(a, now, d, first, blocks, Block(None, block));
    PlaceForIs(siblings, None);
    if p.Err? {
      blocks := blocks + [Block(None, block)];
      AllOutOfKeys(a, t, project, now, d, heads.Keys, blocks);
      return Err(p.error), list, blocks;
    }
    GroupStep(a, t, project, now, d, placed, siblings, changed, |siblings|, block, p.value);
    ByIdKeys(p.value.changed);
    assert placed + rest == heads.Keys;
    return Ok(changed + ById(p.value.changed)), p.value.list, blocks + [Block(None, block)];
  }

  lemma PlaceForIs(list: seq<Card>, anchor: Option<Card>)
    ensures PlaceFor(list, anchor) == if anchor.Some? then LowerBound(TreeOrder, list, anchor.value) else |list|
  {
    hide LowerBound;
  }

  lemma ByIdKeys(cs: seq<Card>)
    ensures ById(cs).Keys == IdSet(cs)
  {
    hide ById;
    assert forall c :: c in cs ==> c.id in ById(cs);
  }

  lemma NoTurn(heads: map<Id, Head>, anchored: set<Id>)
    requires anchored == set x | x in heads && heads[x].anchor.Some?
    ensures AnchorsInTurn(heads, anchored, {}) && forall x :: x in anchored ==> x in heads && heads[x].anchor.Some?
  {
  }

  // ----- why the blocks fit -----

  /** A head is no sibling that stays. */
  lemma HeadMoves(t: Table, project: string, d: Option<Id>, e: Option<Id>, x: Id)
    requires HeadTo(t, project, d, x)
    ensures !StaysBelow(t, project, e, x)
  {
  }

  /** A card of the group that is a head has been placed. */
  lemma ListedHead(t: Table, project: string, now: int, d: Option<Id>, placed: set<Id>, list: seq<Card>,
                   changed: map<Id, Card>, k: nat)
    requires WellKeyed(t) && Group(t, project, now, d, placed, list, changed) && k < |list|
    ensures HeadTo(t, project, d, list[k].id) ==> list[k].id in placed
    ensures list[k].id !in changed ==> list[k].id in t && list[k] == t[list[k].id]
  {
    hide IsHead, Destination;
    assert list[k] in list;
    assert GroupRow(t, project, now, d, placed, changed, list[k]);
    if HeadTo(t, project, d, list[k].id) { HeadElsewhere(t, project, list[k].id); }
  }

  /** Heads in tree order are in order. */
  lemma BlockInOrder(t: Table, project: string, d: Option<Id>, written: set<Id>, block: seq<Card>)
    requires Sorted(TreeOrder, block)
    requires forall j :: 0 <= j < |block| ==>
      block[j].id in t && HeadTo(t, project, d, block[j].id) && t[block[j].id] == block[j]
    requires forall i, j :: 0 <= i < |block| && 0 <= j < |block| ==> SameAnchor(t, project, block[i].id, block[j].id)
    ensures InOrder(t, project, d, written, block)
  {
    hide HeadTo, StaysBelow, Anchor, TreeLess, Judged;
    forall i, j | 0 <= i < j < |block|
      ensures !Must(t, project, d, written, block[j].id, block[i].id)
    {
      HeadMoves(t, project, d, d, block[i].id);
      HeadMoves(t, project, d, d, block[j].id);
      assert Less(TreeOrder, block[i], block[j]);
      TreeLessOneWay(block[i], block[j]);
      assert SameAnchor(t, project, block[i].id, block[j].id);
    }
  }

  /** What the cards of a block of heads are. */
  lemma BlockCards(t: Table, project: string, d: Option<Id>, placed: set<Id>, heads: map<Id, Head>, chosen: set<Id>,
                   block: seq<Card>, j: nat)
    requires HeadsFor(t, project, d, heads) && chosen <= heads.Keys && IdSet(block) == chosen && j < |block|
    requires Arriving(t, project, d, placed, block)
    ensures var x := block[j].id;
      x in chosen && x in t && HeadTo(t, project, d, x) && t[x] == block[j] && heads[x].anchor == Anchor(t, project, x)
  {
    hide HeadTo, Anchor, LiveIn;
    HeadStored(t, project, d, block[j].id);
    assert block[j] in block;
    assert block[j].id in IdSet(block);
  }

  lemma AnchoredFits(t: Table, project: string, now: int, d: Option<Id>, heads: map<Id, Head>, anchored: set<Id>,
                     placed: set<Id>, list: seq<Card>, changed: map<Id, Card>, x: Id, block: seq<Card>, at: nat)
    requires WellKeyed(t) && HeadsFor(t, project, d, heads) && Group(t, project, now, d, placed, list, changed)
    requires AnchorsInTurn(heads, anchored, placed) && (placed == {} ==> changed == map[])
    requires x in anchored && x !in placed && x in heads && heads[x].anchor.Some?
    requires at == LowerBound(TreeOrder, list, heads[x].anchor.value) && at <= |list|
    requires Sorted(TreeOrder, block) && Arriving(t, project, d, placed, block)
    requires IdSet(block) == OfAnchor(heads, anchored, placed, x)
    ensures Fits(t, project, d, changed.Keys, list, at, block)
  {
    hide *;
    var anchor := heads[x].anchor.value;
    AnchoredBlock(t, project, d, heads, anchored, placed, x, block);
    BlockInOrder(t, project, d, changed.Keys, block);
    forall k, j | 0 <= k < at && 0 <= j < |block|
      ensures !Must(t, project, d, changed.Keys, block[j].id, list[k].id)
    {
      BelowAnchor(t, project, now, d, placed, list, changed, anchor, at, k);
      AnchoredPair(t, project, now, d, heads, anchored, placed, list, changed, x, block[j].id, k);
    }
    forall k, j | at <= k < |list| && 0 <= j < |block|
      ensures !Must(t, project, d, changed.Keys, list[k].id, block[j].id)
    {
      BelowAnchor(t, project, now, d, placed, list, changed, anchor, at, k);
      AnchoredPair(t, project, now, d, heads, anchored, placed, list, changed, x, block[j].id, k);
    }
    FitsIf(t, project, d, changed.Keys, list, at, block);
  }

  lemma FitsIf(t: Table, project: string, d: Option<Id>, written: set<Id>, list: seq<Card>, at: nat, block: seq<Card>)
    requires at <= |list| && InOrder(t, project, d, written, block)
    requires forall k, j :: 0 <= k < at && 0 <= j < |block| ==> !Must(t, project, d, written, block[j].id, list[k].id)
    requires forall k, j :: at <= k < |list| && 0 <= j < |block| ==>
      !Must(t, project, d, written, list[k].id, block[j].id)
    ensures Fits(t, project, d, written, list, at, block)
  {
    hide Must, InOrder;
  }

  lemma AnchoredBlock(t: Table, project: string, d: Option<Id>, heads: map<Id, Head>, anchored: set<Id>,
                      placed: set<Id>,
                      x: Id, block: seq<Card>)
    requires WellKeyed(t) && HeadsFor(t, project, d, heads) && AnchorsInTurn(heads, anchored, placed)
    requires x in anchored && Arriving(t, project, d, placed, block)
    requires IdSet(block) == OfAnchor(heads, anchored, placed, x)
    ensures forall j :: 0 <= j < |block| ==>
      block[j].id in t && HeadTo(t, project, d, block[j].id) && t[block[j].id] == block[j]
    ensures forall i, j :: 0 <= i < |block| && 0 <= j < |block| ==> SameAnchor(t, project, block[i].id, block[j].id)
    ensures forall j :: 0 <= j < |block| ==>
      block[j].id in anchored && block[j].id !in placed && Anchor(t, project, block[j].id) == heads[x].anchor
  {
    hide HeadTo, Anchor;
    forall j | 0 <= j < |block|
      ensures block[j].id in anchored && block[j].id !in placed && HeadTo(t, project, d, block[j].id)
      ensures block[j].id in t && t[block[j].id] == block[j] && Anchor(t, project, block[j].id) == heads[x].anchor
    {
      BlockCards(t, project, d, placed, heads, IdSet(block), block, j);
      HeadStored(t, project, d, x);
      AnchorStored(t, project, x);
      AnchorStored(t, project, block[j].id);
    }
  }

  /** An anchor is a stored card. */
  lemma AnchorStored(t: Table, project: string, x: Id)
    requires WellKeyed(t) && x in t
    ensures Anchor(t, project, x).Some? ==>
      var a := Anchor(t, project, x).value; a.id in t && t[a.id] == a
  {
    if steps: nat :| EndsIn(t, project, t[x].parent, steps) {
      AnchorIs(t, project, x, steps);
      AnchorOfStored(t, project, t[x].parent, Destination(t, x), steps);
    }
  }

  lemma {:induction false} AnchorOfStored(t: Table, project: string, start: Option<Id>, dest: Option<Id>, steps: nat)
    requires WellKeyed(t) && EndsIn(t, project, start, steps)
    ensures var a := AnchorOf(t, project, start, dest, steps); a.Some? ==> a.value.id in t && t[a.value.id] == a.value
    decreases steps
  {
    if start.Some? && InProject(t, project, start.value) && t[start.value].parent != dest {
      AnchorOfStored(t, project, t[start.value].parent, dest, steps - 1);
    }
  }

  lemma AnchorIs(t: Table, project: string, x: Id, steps: nat)
    requires x in t && EndsIn(t, project, t[x].parent, steps)
    ensures Anchor(t, project, x) == AnchorOf(t, project, t[x].parent, Destination(t, x), steps)
  {
    var n: nat :| EndsIn(t, project, t[x].parent, n) &&
      Anchor(t, project, x) == AnchorOf(t, project, t[x].parent, Destination(t, x), n);
    EndsUnique(t, project, t[x].parent, n, steps);
  }

  /** Which cards stand before the anchor's place. */
  lemma BelowAnchor(t: Table, project: string, now: int, d: Option<Id>, placed: set<Id>, list: seq<Card>,
                    changed: map<Id, Card>, anchor: Card, at: nat, k: nat)
    requires Group(t, project, now, d, placed, list, changed) && at == LowerBound(TreeOrder, list, anchor) && k < |list|
    ensures TreeLess(list[k], anchor) <==> k < at
  {
    hide GroupRow, InOrder, TreeLess;
    assert Less(TreeOrder, list[k], anchor) <==> TreeLess(list[k], anchor);
    if at < k && Less(TreeOrder, list[k], anchor) { LessTransitive(TreeOrder, list[at], list[k], anchor); }
  }

  /** A head of the anchor at hand and a card already in the list. */
  lemma AnchoredPair(t: Table, project: string, now: int, d: Option<Id>, heads: map<Id, Head>, anchored: set<Id>,
                     placed: set<Id>, list: seq<Card>, changed: map<Id, Card>, x: Id, b: Id, k: nat)
    requires WellKeyed(t) && HeadsFor(t, project, d, heads) && Group(t, project, now, d, placed, list, changed)
    requires AnchorsInTurn(heads, anchored, placed) && (placed == {} ==> changed == map[]) && k < |list|
    requires x in anchored && x in heads && heads[x].anchor.Some? && b in anchored && b !in placed
    requires HeadTo(t, project, d, b) && Anchor(t, project, b) == heads[x].anchor
    ensures TreeLess(list[k], heads[x].anchor.value) ==> !Must(t, project, d, changed.Keys, b, list[k].id)
    ensures !TreeLess(list[k], heads[x].anchor.value) ==> !Must(t, project, d, changed.Keys, list[k].id, b)
  {
    hide *;
    var o := list[k].id;
    HeadMoves(t, project, d, d, b);
    ListedHead(t, project, now, d, placed, list, changed, k);
    TurnAnchor(t, project, d, heads, anchored, placed, b);
    if HeadTo(t, project, d, o) {
      HeadMoves(t, project, d, d, o);
      OtherTurn(t, project, d, heads, anchored, placed, o, b);
    }
    JudgedRow(t, project, d, heads, anchored, placed, changed, o, b);
    AnchoredMust(t, project, d, changed.Keys, o, b);
  }

  lemma TurnAnchor(t: Table, project: string, d: Option<Id>, heads: map<Id, Head>, anchored: set<Id>, placed: set<Id>,
                   b: Id)
    requires HeadsFor(t, project, d, heads) && AnchorsInTurn(heads, anchored, placed) && b in anchored
    ensures b in heads && b in t && Anchor(t, project, b) == heads[b].anchor && heads[b].anchor.Some?
  {
    hide Anchor, HeadTo;
    assert HeadTo(t, project, d, b) ==> b in t by { HeadStored(t, project, d, b); }
  }

  lemma HeadStored(t: Table, project: string, d: Option<Id>, x: Id)
    ensures HeadTo(t, project, d, x) ==> x in t
    ensures StaysBelow(t, project, d, x) ==> x in t
  {
  }

  /** Heads placed in an earlier turn have another anchor, with a smaller id. */
  lemma OtherTurn(t: Table, project: string, d: Option<Id>, heads: map<Id, Head>, anchored: set<Id>, placed: set<Id>,
                  o: Id, b: Id)
    requires HeadsFor(t, project, d, heads) && AnchorsInTurn(heads, anchored, placed)
    requires o in placed && b in anchored && b !in placed && HeadTo(t, project, d, o) && HeadTo(t, project, d, b)
    ensures o in t && b in t && Anchor(t, project, o).Some? && !SameAnchor(t, project, o, b)
    ensures !SameAnchor(t, project, b, o)
    ensures Anchor(t, project, b).Some? && !PlacedFirst(t, project, d, b)
  {
    hide Anchor, IsHead, Destination;
    StrLessIrreflexive(heads[o].anchor.value.id);
  }

  /** When a sibling is judged against the anchor, its row is the stored one. */
  lemma JudgedRow(t: Table, project: string, d: Option<Id>, heads: map<Id, Head>, anchored: set<Id>, placed: set<Id>,
                  changed: map<Id, Card>, o: Id, b: Id)
    requires HeadsFor(t, project, d, heads) && AnchorsInTurn(heads, anchored, placed)
    requires (placed == {} ==> changed == map[])
    requires b in anchored && b !in placed && HeadTo(t, project, d, b) && b in t && Anchor(t, project, b).Some?
    ensures Judged(t, project, d, changed.Keys, o, b) ==> o !in changed
  {
    hide Anchor, HeadTo, HeadsFor, AnchorsInTurn, SameAnchor, PlacedFirst;
    if placed != {} {
      var y :| y in placed;
      PlacedIsHead(t, project, d, heads, anchored, placed, y);
      OtherTurn(t, project, d, heads, anchored, placed, y, b);
    }
  }

  lemma PlacedIsHead(t: Table, project: string, d: Option<Id>, heads: map<Id, Head>, anchored: set<Id>, placed: set<Id>,
                     y: Id)
    requires HeadsFor(t, project, d, heads) && AnchorsInTurn(heads, anchored, placed) && y in placed
    ensures HeadTo(t, project, d, y)
  {
    hide Anchor, HeadTo;
  }

  /** What an anchored head and another card owe each other. */
  lemma AnchoredMust(t: Table, project: string, d: Option<Id>, written: set<Id>, o: Id, b: Id)
    requires b in t && HeadTo(t, project, d, b) && Anchor(t, project, b).Some? && !StaysBelow(t, project, d, b)
    requires HeadTo(t, project, d, o) ==>
      o in t && Anchor(t, project, o).Some? && !SameAnchor(t, project, o, b) && !SameAnchor(t, project, b, o)
    requires !HeadTo(t, project, d, o) || !StaysBelow(t, project, d, o)
    ensures Must(t, project, d, written, b, o) ==>
      o in t && Judged(t, project, d, written, o, b) && !TreeLess(t[o], Anchor(t, project, b).value)
    ensures Must(t, project, d, written, o, b) ==>
      o in t && Judged(t, project, d, written, o, b) && TreeLess(t[o], Anchor(t, project, b).value)
  {
    hide StaysBelow, HeadTo, Anchor, TreeLess, SameAnchor, Judged;
    HeadStored(t, project, d, o);
  }

  lemma UnanchoredFits(t: Table, project: string, now: int, d: Option<Id>, heads: map<Id, Head>, anchored: set<Id>,
                       list: seq<Card>, changed: map<Id, Card>, block: seq<Card>)
    requires WellKeyed(t) && HeadsFor(t, project, d, heads) && Group(t, project, now, d, anchored, list, changed)
    requires AnchorsInTurn(heads, anchored, anchored) && IdSet(block) == heads.Keys - anchored
    requires Sorted(TreeOrder, block) && Arriving(t, project, d, anchored, block)
    ensures Fits(t, project, d, changed.Keys, list, |list|, block)
  {
    hide *;
    UnanchoredBlock(t, project, d, heads, anchored, block);
    BlockInOrder(t, project, d, changed.Keys, block);
    forall k, j | 0 <= k < |list| && 0 <= j < |block|
      ensures !Must(t, project, d, changed.Keys, block[j].id, list[k].id)
    {
      var o := list[k].id;
      HeadMoves(t, project, d, d, block[j].id);
      ListedHead(t, project, now, d, anchored, list, changed, k);
      if HeadTo(t, project, d, o) { TurnAnchor(t, project, d, heads, anchored, anchored, o); }
      UnanchoredMust(t, project, d, changed.Keys, o, block[j].id);
    }
    FitsIf(t, project, d, changed.Keys, list, |list|, block);
  }

  lemma UnanchoredBlock(t: Table, project: string, d: Option<Id>, heads: map<Id, Head>, anchored: set<Id>,
                        block: seq<Card>)
    requires HeadsFor(t, project, d, heads) && AnchorsInTurn(heads, anchored, anchored)
    requires IdSet(block) == heads.Keys - anchored && Arriving(t, project, d, anchored, block)
    ensures forall j :: 0 <= j < |block| ==>
      block[j].id in t && HeadTo(t, project, d, block[j].id) && t[block[j].id] == block[j]
    ensures forall j :: 0 <= j < |block| ==> Anchor(t, project, block[j].id).None?
    ensures forall i, j :: 0 <= i < |block| && 0 <= j < |block| ==> SameAnchor(t, project, block[i].id, block[j].id)
  {
    hide HeadTo, Anchor;
    forall j | 0 <= j < |block|
      ensures block[j].id in t && HeadTo(t, project, d, block[j].id) && t[block[j].id] == block[j]
      ensures Anchor(t, project, block[j].id).None?
    {
      BlockCards(t, project, d, anchored, heads, IdSet(block), block, j);
    }
  }

  lemma UnanchoredMust(t: Table, project: string, d: Option<Id>, written: set<Id>, o: Id, b: Id)
    requires b in t && HeadTo(t, project, d, b) && Anchor(t, project, b).None? && !StaysBelow(t, project, d, b)
    requires HeadTo(t, project, d, o) ==> o in t && Anchor(t, project, o).Some?
    ensures !Must(t, project, d, written, b, o)
  {
    hide StaysBelow, HeadTo, Anchor, TreeLess, Judged;
  }

  lemma GroupStart(t: Table, project: string, now: int, d: Option<Id>)
    requires WellKeyed(t)
    ensures Group(t, project, now, d, {}, Siblings(t, project, d), map[])
  {
    hide Siblings, Must;
    var list := Siblings(t, project, d);
    var none: map<Id, Card> := map[];
    assert none.Keys == {};
    SiblingsMember(t, project, d);
    forall i, j | 0 <= i < j < |list|
      ensures list[i].id != list[j].id && !Must(t, project, d, {}, list[j].id, list[i].id)
    {
      assert list[i] in list && list[j] in list && Less(TreeOrder, list[i], list[j]);
      if list[i].id == list[j].id { SortedDistinct(TreeOrder, list, i, j); }
      TreeLessOneWay(list[i], list[j]);
      ChildIsNoHead(t, project, d, list[i].id);
      ChildIsNoHead(t, project, d, list[j].id);
      SiblingsMust(t, project, d, list[j].id, list[i].id);
    }
    forall x | x in t && ChildOf(t[x], project, d)
      ensures x in Ids(list)
    {
      var i :| 0 <= i < |list| && list[i] == t[x] by { assert t[x] in list; }
      assert Ids(list)[i] == x;
    }
  }

  lemma ChildIsNoHead(t: Table, project: string, d: Option<Id>, x: Id)
    requires WellKeyed(t) && x in t && t[x].parent == d
    ensures !HeadTo(t, project, d, x)
  {
    if HeadTo(t, project, d, x) { HeadElsewhere(t, project, x); }
  }

  lemma SiblingsMust(t: Table, project: string, d: Option<Id>, x: Id, y: Id)
    requires x in t && y in t && !HeadTo(t, project, d, x) && !HeadTo(t, project, d, y) && !TreeLess(t[x], t[y])
    ensures !Must(t, project, d, {}, x, y)
  {
    hide StaysBelow, HeadTo, Anchor, TreeLess;
  }

  // ----- several groups -----

  function Row(t: Table, changed: map<Id, Card>, x: Id): Card
    requires x in t
  {
    if x in changed then changed[x] else t[x]
  }

  /** The cards below `d` stand where they have to. */
  ghost predicate GroupOrder(t: Table, project: string, d: Option<Id>, changed: map<Id, Card>)
  {
    forall x, y :: Must(t, project, d, changed.Keys, x, y) ==>
      x in t && y in t && TreeLess(Row(t, changed, x), Row(t, changed, y))
  }

  /** A rewritten row of destination `d`. */
  ghost predicate RowOf(t: Table, project: string, now: int, x: Id, c: Card)
  {
    c.id == x && RepairedRow(t, project, now, c)
  }

  /** The rewritten rows of the destinations done so far. */
  ghost predicate Groups(t: Table, project: string, now: int, done: set<Option<Id>>, changed: map<Id, Card>)
  {
    && (forall x :: x in changed ==> RowOf(t, project, now, x, changed[x]) && changed[x].parent in done)
    && (forall x :: x in t && IsHead(t, project, x) && Destination(t, x) in done ==> x in changed)
    && (forall d :: d in done ==> GroupOrder(t, project, d, changed))
  }

  lemma DestinationLive(t: Table, project: string, x: Id)
    requires WellKeyed(t) && IsHead(t, project, x)
    ensures var d := Destination(t, x); d.None? || LiveIn(t, project, d.value)
  {
    ReachableParentSound(t, t[x]);
    var d := Destination(t, x);
    var n: nat :| Anchored(t, project, d, {x}, n);
  }

  /** A finished group, seen as repaired rows. */
  lemma GroupIsGroups(t: Table, project: string, now: int, d: Option<Id>, heads: set<Id>, list: seq<Card>,
                      changed: map<Id, Card>)
    requires WellKeyed(t) && Group(t, project, now, d, heads, list, changed)
    requires d.None? || LiveIn(t, project, d.value)
    requires forall x :: x in heads <==> x in t && IsHead(t, project, x) && Destination(t, x) == d
    ensures Groups(t, project, now, {d}, changed)
  {
    hide IsHead, Destination, Less, TreeLess, Must, InOrder;
    forall x | x in changed
      ensures RowOf(t, project, now, x, changed[x]) && changed[x].parent in {d}
    {
      assert GroupRow(t, project, now, d, heads, changed, changed[x]);
      if x !in heads { ChildOfLiveIsNoHead(t, project, d, x); }
    }
    forall x | x in heads
      ensures x in changed
    {
      var i :| 0 <= i < |list| && Ids(list)[i] == x;
      assert list[i] in list;
      assert GroupRow(t, project, now, d, heads, changed, list[i]);
    }
    forall x, y | Must(t, project, d, changed.Keys, x, y)
      ensures x in t && y in t && TreeLess(Row(t, changed, x), Row(t, changed, y))
    {
      GroupKeepsPair(t, project, now, d, heads, list, changed, x, y);
    }
  }

  lemma ChildOfLiveIsNoHead(t: Table, project: string, d: Option<Id>, x: Id)
    requires x in t && t[x].parent == d && (d.None? || LiveIn(t, project, d.value))
    ensures !IsHead(t, project, x)
  {
  }

  lemma GroupKeepsPair(t: Table, project: string, now: int, d: Option<Id>, heads: set<Id>, list: seq<Card>,
                       changed: map<Id, Card>, x: Id, y: Id)
    requires WellKeyed(t) && Group(t, project, now, d, heads, list, changed)
    requires Must(t, project, d, changed.Keys, x, y)
    requires forall h :: h in heads <==> h in t && IsHead(t, project, h) && Destination(t, h) == d
    ensures x in t && y in t && TreeLess(Row(t, changed, x), Row(t, changed, y))
  {
    hide *;
    MustBelow(t, project, d, changed.Keys, x, y);
    var i := Position(t, project, now, d, heads, list, changed, x);
    var j := Position(t, project, now, d, heads, list, changed, y);
    GroupPairs(t, project, now, d, heads, list, changed, i, j);
    GroupPairs(t, project, now, d, heads, list, changed, j, i);
  }

  lemma GroupPairs(t: Table, project: string, now: int, d: Option<Id>, heads: set<Id>, list: seq<Card>,
                   changed: map<Id, Card>, i: nat, j: nat)
    requires Group(t, project, now, d, heads, list, changed) && i < |list| && j < |list|
    ensures i < j ==> TreeLess(list[i], list[j]) && !Must(t, project, d, changed.Keys, list[j].id, list[i].id)
  {
    hide GroupRow, Must, TreeLess;
    assert i < j ==> Less(TreeOrder, list[i], list[j]);
  }

  /** Where a card below `d` stands. */
  lemma Position(t: Table, project: string, now: int, d: Option<Id>, heads: set<Id>, list: seq<Card>,
                 changed: map<Id, Card>, x: Id) returns (i: nat)
    requires WellKeyed(t) && Group(t, project, now, d, heads, list, changed) && IsBelow(t, project, d, x)
    requires forall h :: h in heads <==> h in t && IsHead(t, project, h) && Destination(t, h) == d
    ensures i < |list| && list[i].id == x && x in t && list[i] == Row(t, changed, x)
  {
    hide IsHead, Destination, InOrder;
    assert x in heads || (x in t && ChildOf(t[x], project, d));
    i :| 0 <= i < |list| && Ids(list)[i] == x;
    assert list[i] in list;
    assert GroupRow(t, project, now, d, heads, changed, list[i]);
  }

  predicate IsBelow(t: Table, project: string, d: Option<Id>, x: Id)
  {
    StaysBelow(t, project, d, x) || HeadTo(t, project, d, x)
  }

  lemma MustBelow(t: Table, project: string, d: Option<Id>, written: set<Id>, x: Id, y: Id)
    requires Must(t, project, d, written, x, y)
    ensures IsBelow(t, project, d, x) && IsBelow(t, project, d, y) && x != y
  {
    hide StaysBelow, HeadTo, Anchor, TreeLess, Judged;
    if x == y {
      HeadStored(t, project, d, x);
      TreeLessIrreflexive(t[x]);
      if HeadTo(t, project, d, x) { HeadMoves(t, project, d, d, x); }
    }
  }

  lemma TreeLessIrreflexive(c: Card)
    ensures !TreeLess(c, c)
  {
    LessIrreflexive(TreeOrder, c, c);
    assert Less(TreeOrder, c, c) <==> TreeLess(c, c);
  }

  /** Only whether the two cards are rewritten matters. */
  lemma MustSame(t: Table, project: string, d: Option<Id>, written: set<Id>, other: set<Id>, x: Id, y: Id)
    requires Must(t, project, d, written, x, y) && (x in written <==> x in other) && (y in written <==> y in other)
    ensures Must(t, project, d, other, x, y)
  {
    hide StaysBelow, HeadTo, Anchor, TreeLess, SameAnchor, PlacedFirst;
  }

  /** A rewritten row hangs below the destination it belongs to. */
  lemma RowBelow(t: Table, project: string, now: int, d: Option<Id>, x: Id, c: Card)
    requires IsBelow(t, project, d, x) && RowOf(t, project, now, x, c)
    ensures c.parent == d
  {
    hide Destination;
  }

  /** Finished destinations do not disturb each other. */
  lemma GroupsMerge(t: Table, project: string, now: int, done: set<Option<Id>>, changed: map<Id, Card>,
                    d: Option<Id>, more: map<Id, Card>)
    requires Groups(t, project, now, done, changed) && Groups(t, project, now, {d}, more) && d !in done
    ensures Groups(t, project, now, done + {d}, changed + more)
  {
    hide IsHead, Destination, TreeLess, Must, GroupOrder, RepairedRow;
    var all := changed + more;
    forall x | x in all
      ensures RowOf(t, project, now, x, all[x]) && all[x].parent in done + {d}
    {
    }
    assert changed.Keys !! more.Keys by { GroupsApart(t, project, now, done, changed, d, more); }
    forall e | e in done + {d}
      ensures GroupOrder(t, project, e, all)
    {
      var part := if e == d then more else changed;
      forall x | IsBelow(t, project, e, x)
        ensures x in all <==> x in part
        ensures x in all ==> all[x] == part[x]
      {
        if x in changed { RowBelow(t, project, now, e, x, changed[x]); }
        if x in more { RowBelow(t, project, now, e, x, more[x]); }
      }
      OrderOfPart(t, project, e, part, all);
    }
  }

  lemma GroupsApart(t: Table, project: string, now: int, done: set<Option<Id>>, changed: map<Id, Card>,
                    d: Option<Id>, more: map<Id, Card>)
    requires Groups(t, project, now, done, changed) && Groups(t, project, now, {d}, more) && d !in done
    ensures changed.Keys !! more.Keys
  {
    hide IsHead, Destination, GroupOrder, RepairedRow;
    forall x | x in changed
      ensures x !in more
    {
      RowParent(t, project, now, x, changed[x]);
      RowParent(t, project, now, x, if x in more then more[x] else changed[x]);
    }
  }

  lemma RowParent(t: Table, project: string, now: int, x: Id, c: Card)
    ensures RowOf(t, project, now, x, c) ==>
      x in t && c.parent == if IsHead(t, project, x) then Destination(t, x) else t[x].parent
  {
    hide IsHead, Destination;
  }

  lemma OrderOfPart(t: Table, project: string, e: Option<Id>, part: map<Id, Card>, all: map<Id, Card>)
    requires GroupOrder(t, project, e, part)
    requires forall x :: IsBelow(t, project, e, x) ==> (x in all <==> x in part) && (x in all ==> all[x] == part[x])
    ensures GroupOrder(t, project, e, all)
  {
    hide Must, TreeLess, IsBelow;
    forall x, y | Must(t, project, e, all.Keys, x, y)
      ensures x in t && y in t && TreeLess(Row(t, all, x), Row(t, all, y))
    {
      MustBelow(t, project, e, all.Keys, x, y);
      MustSame(t, project, e, all.Keys, part.Keys, x, y);
    }
  }

  function Destinations(t: Table, project: string): set<Option<Id>>
  {
    set x | x in Heads(t, project) :: Destination(t, x)
  }

  /** All destinations done: the rewritten rows are a repair plan. */
  lemma GroupsArePlan(t: Table, project: string, now: int, changed: map<Id, Card>, placements: seq<Card>)
    requires WellKeyed(t) && Groups(t, project, now, Destinations(t, project), changed)
    requires forall c :: c in placements <==> c.id in changed && changed[c.id] == c
    ensures IsRepair(t, project, now, Plan(placements, Heads(t, project), Looping(t, project)))
  {
    hide *;
    var done := Destinations(t, project);
    PlanRows(t, project, now, changed, placements);
    SaveAllRows(t, placements);
    PlanKeepsOrder(t, project, now, changed, placements, SaveAll(t, placements));
    PlanIs(t, project, now, placements);
  }

  lemma PlanIs(t: Table, project: string, now: int, placements: seq<Card>)
    requires DistinctIds(Elements(placements))
    requires forall c :: c in placements ==> RepairedRow(t, project, now, c)
    requires forall x :: x in Heads(t, project) ==> exists c :: c in placements && c.id == x
    requires Heads(t, project) == {} ==> placements == []
    requires InPlace(t, SaveAll(t, placements), project, IdSet(placements))
    ensures IsRepair(t, project, now, Plan(placements, Heads(t, project), Looping(t, project)))
  {
    hide Heads, Looping, InPlace, RepairedRow, DistinctIds, SaveAll;
  }

  lemma PlanRows(t: Table, project: string, now: int, changed: map<Id, Card>, placements: seq<Card>)
    requires WellKeyed(t) && Groups(t, project, now, Destinations(t, project), changed)
    requires forall c :: c in placements <==> c.id in changed && changed[c.id] == c
    ensures DistinctIds(Elements(placements))
    ensures forall c :: c in placements ==>
        RepairedRow(t, project, now, c) && c.id in t && t[c.id].project == c.project
    ensures forall x :: x in Heads(t, project) ==> exists c :: c in placements && c.id == x
    ensures Heads(t, project) == {} ==> placements == []
  {
    hide IsHead, Destination, GroupOrder;
    assert forall x :: x in changed ==>
      RowOf(t, project, now, x, changed[x]) && changed[x].parent in Destinations(t, project);
    forall x | x in Heads(t, project)
      ensures exists c :: c in placements && c.id == x
    {
      assert Destination(t, x) in Destinations(t, project);
      assert changed[x] in placements;
    }
    if placements != [] {
      assert placements[0] in placements;
    }
  }

  lemma PlanKeepsOrder(t: Table, project: string, now: int, changed: map<Id, Card>, placements: seq<Card>, t': Table)
    requires WellKeyed(t) && Groups(t, project, now, Destinations(t, project), changed)
    requires forall c :: c in placements <==> c.id in changed && changed[c.id] == c
    requires t'.Keys == t.Keys
    requires forall c :: c in placements ==> c.id in t' && t'[c.id] == c
    requires forall x :: x in t && (forall c :: c in placements ==> c.id != x) ==> t'[x] == t[x]
    ensures InPlace(t, t', project, IdSet(placements))
  {
    hide IsHead, Destination, TreeLess, Must, Heads, GroupOrder, RepairedRow;
    assert forall x :: x in changed ==> RowOf(t, project, now, x, changed[x]);
    forall x | x in t
      ensures t'[x] == Row(t, changed, x)
    {
      if x in changed { assert changed[x] in placements; }
    }
    forall x
      ensures x in IdSet(placements) <==> x in changed
    {
      if x in changed { assert changed[x] in placements; }
    }
    forall d, x, y | Must(t, project, d, IdSet(placements), x, y)
      ensures x in t' && y in t' && TreeLess(t'[x], t'[y])
    {
      MustSame(t, project, d, IdSet(placements), changed.Keys, x, y);
      if d in Destinations(t, project) {
        OrderedPair(t, project, d, changed, x, y);
      } else {
        NoHeadsPair(t, project, now, d, changed, x, y);
      }
    }
  }

  lemma OrderedPair(t: Table, project: string, d: Option<Id>, changed: map<Id, Card>, x: Id, y: Id)
    requires GroupOrder(t, project, d, changed) && Must(t, project, d, changed.Keys, x, y)
    ensures x in t && y in t && TreeLess(Row(t, changed, x), Row(t, changed, y))
  {
    hide Must, TreeLess;
  }

  /** Below a card that no head comes to, nothing changes. */
  lemma NoHeadsPair(t: Table, project: string, now: int, d: Option<Id>, changed: map<Id, Card>, x: Id, y: Id)
    requires Groups(t, project, now, Destinations(t, project), changed) && d !in Destinations(t, project)
    requires Must(t, project, d, changed.Keys, x, y)
    ensures x in t && y in t && TreeLess(Row(t, changed, x), Row(t, changed, y))
  {
    hide IsHead, Destination, TreeLess, Anchor, GroupOrder, RepairedRow;
    MustBelow(t, project, d, changed.Keys, x, y);
    forall z
      ensures !HeadTo(t, project, d, z)
    {
      assert HeadTo(t, project, d, z) ==> z in Heads(t, project);
    }
    if x in changed { RowBelow(t, project, now, d, x, changed[x]); }
    if y in changed { RowBelow(t, project, now, d, y, changed[y]); }
  }

  // ----- plan_hierarchy_repair -----

  /** What the first loop collects from the ids it has seen. */
  ghost predicate Collected(t: Table, project: string, seen: set<Id>, heads: map<Id, Head>, cycles: set<Id>)
  {
    && (forall x :: x in heads <==> x in seen && x in t && IsHead(t, project, x))
    && (forall x :: x in heads ==>
          heads[x].card == t[x] && heads[x].dest == Destination(t, x) && heads[x].anchor == Anchor(t, project, x))
    && (forall x :: x in cycles <==> x in seen && x in t && LiveIn(t, project, x) && WalkLoops(t, x))
  }

  method CollectHeads(t: Table, project: string) returns (heads: map<Id, Head>, cycles: set<Id>)
    requires WellKeyed(t)
    ensures Collected(t, project, t.Keys, heads, cycles)
  {
    hide Collected, Anchor, IsHead, WalkLoops, Destination;
    heads, cycles := map[], {};
    var todo := t.Keys;
    NoneCollected(t, project);
    assert t.Keys - todo == {};
    while todo != {}
      invariant todo <= t.Keys && Collected(t, project, t.Keys - todo, heads, cycles)
    {
      var x :| x in todo;
      ghost var seen := t.Keys - todo;
      todo := todo - {x};
      assert t.Keys - todo == seen + {x};
      var card := t[x];
      if card.project == project && card.Live() && card.parent.Some? {
        var dest := ComputeReachableParent(t, card);
        CardKind(t, project, x);
        if dest.Err? {
          CollectCycle(t, project, seen, heads, cycles, x);
          cycles := cycles + {x};
        } else if !LiveIn(t, project, card.parent.value) {
          ghost var steps := HeadEnds(t, project, x);
          var anchor := FindAnchor(t, project, card.parent, dest.value, steps);
          AnchorIs(t, project, x, steps);
          CollectHead(t, project, seen, heads, cycles, x, Head(card, dest.value, anchor));
          heads := heads[x := Head(card, dest.value, anchor)];
        } else {
          CollectOther(t, project, seen, heads, cycles, x);
        }
      } else {
        NoKind(t, project, x);
        CollectOther(t, project, seen, heads, cycles, x);
      }
    }
    assert t.Keys - todo == t.Keys;
  }

  lemma NoneCollected(t: Table, project: string)
    ensures Collected(t, project, {}, map[], {})
  {
  }

  /** What the walk from a live card with a parent says about it. */
  lemma CardKind(t: Table, project: string, x: Id)
    requires WellKeyed(t) && x in t && LiveIn(t, project, x) && t[x].parent.Some?
    ensures ReachableParent(t, t[x]).Err? <==> WalkLoops(t, x)
    ensures IsHead(t, project, x) <==> ReachableParent(t, t[x]).Ok? && !LiveIn(t, project, t[x].parent.value)
    ensures ReachableParent(t, t[x]).Ok? ==> Destination(t, x) == ReachableParent(t, t[x]).value
  {
  }

  lemma NoKind(t: Table, project: string, x: Id)
    requires x in t && !(t[x].project == project && t[x].Live() && t[x].parent.Some?)
    ensures !IsHead(t, project, x) && !(LiveIn(t, project, x) && WalkLoops(t, x))
  {
  }

  lemma HeadEnds(t: Table, project: string, x: Id) returns (steps: nat)
    requires IsHead(t, project, x)
    ensures EndsIn(t, project, t[x].parent, steps)
  {
    steps := WalkEnds(t, project, t[x].parent, {x});
  }

  lemma CollectHead(t: Table, project: string, seen: set<Id>, heads: map<Id, Head>, cycles: set<Id>, x: Id, h: Head)
    requires Collected(t, project, seen, heads, cycles) && x in t && IsHead(t, project, x) && !WalkLoops(t, x)
    requires h.card == t[x] && h.dest == Destination(t, x) && h.anchor == Anchor(t, project, x)
    ensures Collected(t, project, seen + {x}, heads[x := h], cycles)
  {
    hide IsHead, WalkLoops, Destination, Anchor;
  }

  lemma CollectCycle(t: Table, project: string, seen: set<Id>, heads: map<Id, Head>, cycles: set<Id>, x: Id)
    requires Collected(t, project, seen, heads, cycles) && x in t && x !in seen
    requires LiveIn(t, project, x) && WalkLoops(t, x) && !IsHead(t, project, x)
    ensures Collected(t, project, seen + {x}, heads, cycles + {x})
  {
    hide IsHead, WalkLoops, Destination, Anchor;
  }

  lemma CollectOther(t: Table, project: string, seen: set<Id>, heads: map<Id, Head>, cycles: set<Id>, x: Id)
    requires Collected(t, project, seen, heads, cycles) && x in t
    requires !IsHead(t, project, x) && !(LiveIn(t, project, x) && WalkLoops(t, x))
    ensures Collected(t, project, seen + {x}, heads, cycles)
  {
    hide IsHead, WalkLoops, Destination, Anchor;
  }

  ghost function HeadsTo(t: Table, project: string, d: Option<Id>): set<Id>
  {
    set x | x in t && HeadTo(t, project, d, x)
  }

  /** Below `d` the rewritten rows are those of the arranged blocks. */
  ghost predicate GroupComputed(a: Arithmetic, t: Table, project: string, now: int, d: Option<Id>, changed: map<Id,
                                Card>,
                                blocks: seq<Block>, done: Arranged)
    requires WellKeyed(t)
  {
    && BlocksOf(t, project, HeadsTo(t, project, d), blocks)
    && Arrange(a, now, d, Siblings(t, project, d), blocks) == Ok(done)
    && (forall c :: c in done.list ==> IsBelow(t, project, d, c.id) && c.id in t && c == Row(t, changed, c.id))
    && (forall x :: IsBelow(t, project, d, x) ==> (x in done.written <==> x in changed))
  }

  ghost predicate GroupComputes(a: Arithmetic, t: Table, project: string, now: int, d: Option<Id>, changed: map<Id,
                                Card>)
    requires WellKeyed(t)
  {
    exists blocks, done :: GroupComputed(a, t, project, now, d, changed, blocks, done)
  }

  /** The plan is the one the planner computes: at every destination the arranged blocks, and
      nothing elsewhere. */
  ghost predicate Computes(a: Arithmetic, t: Table, project: string, now: int, plan: Plan)
    requires WellKeyed(t)
  {
    && (forall c :: c in plan.placements ==> c.parent in Destinations(t, project))
    && forall d :: d in Destinations(t, project) ==> GroupComputes(a, t, project, now, d, ById(plan.placements))
  }

  /** At some destination the blocks run out of keys. */
  ghost predicate Fails(a: Arithmetic, t: Table, project: string, now: int)
    requires WellKeyed(t)
  {
    exists d, blocks ::
      d in Destinations(t, project) && OutOfKeys(a, t, project, now, d, HeadsTo(t, project, d), blocks)
  }

  lemma GroupFails(a: Arithmetic, t: Table, project: string, now: int, d: Option<Id>, heads: set<Id>,
                   blocks: seq<Block>)
    requires WellKeyed(t) && d in Destinations(t, project) && OutOfKeys(a, t, project, now, d, heads, blocks)
    requires forall x :: x in heads <==> x in t && IsHead(t, project, x) && Destination(t, x) == d
    ensures Fails(a, t, project, now)
  {
    hide OutOfKeys, IsHead, Destination, Destinations;
    assert heads == HeadsTo(t, project, d);
  }

  /** The plan, or the reason why there is none. */
  method PlanHierarchyRepair(a: Arithmetic, t: Table, project: string, now: int) returns (r: Result<Plan>)
    requires WellKeyed(t)
    ensures r.Ok? ==> IsRepair(t, project, now, r.value) && Computes(a, t, project, now, r.value)
    ensures Roomy(a) ==> r.Ok?
    ensures r.Err? ==> Fails(a, t, project, now)
  {
    hide *;
    var heads, cycles := CollectHeads(t, project);
    var dests := set x | x in heads :: heads[x].dest;
    var done: set<Option<Id>> := {};
    var changed: map<Id, Card> := map[];
    CollectedAll(t, project, heads, cycles);
    NoGroups(t, project, now);
    while dests - done != {}
      invariant done <= dests && Groups(t, project, now, done, changed)
      invariant forall d :: d in done ==> GroupComputes(a, t, project, now, d, changed)
      decreases dests - done
    {
      var d :| d in dests - done;
      var mine := map x | x in heads && heads[x].dest == d :: heads[x];
      HeadsOfGroup(t, project, d, heads, cycles, mine);
      var rows, list, blocks := PlaceGroup(a, t, project, now, d, mine);
      if rows.Err? {
        GroupFails(a, t, project, now, d, mine.Keys, blocks);
        return Err(rows.error);
      }
      GroupIsGroups(t, project, now, d, mine.Keys, list, rows.value);
      PlacedComputes(a, t, project, now, d, mine.Keys, list, rows.value, blocks);
      GroupsMerge(t, project, now, done, changed, d, rows.value);
      ComputesMerge(a, t, project, now, done, changed, d, rows.value);
      done, changed := done + {d}, changed + rows.value;
    }
    assert forall d :: d in dests ==> d in done || d in dests - done;
    assert done == dests;
    var placements := RowsOf(t, project, now, done, changed);
    GroupsArePlan(t, project, now, changed, placements);
    PlanComputes(a, t, project, now, changed, placements);
    return Ok(Plan(placements, heads.Keys, cycles));
  }

  lemma PlacedComputes(a: Arithmetic, t: Table, project: string, now: int, d: Option<Id>, heads: set<Id>,
                       list: seq<Card>,
                       changed: map<Id, Card>, blocks: seq<Block>)
    requires WellKeyed(t) && Group(t, project, now, d, heads, list, changed) && (d.None? || LiveIn(t, project, d.value))
    requires forall x :: x in heads <==> x in t && IsHead(t, project, x) && Destination(t, x) == d
    requires BlocksOf(t, project, heads, blocks)
    requires Arrange(a, now, d, Siblings(t, project, d), blocks) == Ok(Arranged(list, changed.Keys))
    ensures GroupComputes(a, t, project, now, d, changed)
  {
    hide BlocksOf, Arrange, Siblings, IsHead, Destination, InOrder, Sorted;
    assert heads == HeadsTo(t, project, d);
    forall c | c in list
      ensures IsBelow(t, project, d, c.id) && c.id in t && c == Row(t, changed, c.id)
    {
      assert GroupRow(t, project, now, d, heads, changed, c);
      if c.id !in heads { ChildOfLiveIsNoHead(t, project, d, c.id); }
    }
    assert GroupComputed(a, t, project, now, d, changed, blocks, Arranged(list, changed.Keys));
  }

  /** Rows written at one destination are not those of another. */
  lemma ComputesMerge(a: Arithmetic, t: Table, project: string, now: int, done: set<Option<Id>>, changed: map<Id, Card>,
                      d: Option<Id>, more: map<Id, Card>)
    requires WellKeyed(t) && Groups(t, project, now, done, changed) && Groups(t, project, now, {d}, more) && d !in done
    requires forall e :: e in done ==> GroupComputes(a, t, project, now, e, changed)
    requires GroupComputes(a, t, project, now, d, more)
    ensures forall e :: e in done + {d} ==> GroupComputes(a, t, project, now, e, changed + more)
  {
    hide *;
    GroupsApart(t, project, now, done, changed, d, more);
    var all := changed + more;
    forall e | e in done + {d}
      ensures GroupComputes(a, t, project, now, e, all)
    {
      var part := if e == d then more else changed;
      forall x | IsBelow(t, project, e, x)
        ensures (x in all <==> x in part) && (x in all ==> all[x] == part[x])
      {
        if x in changed {
          GroupsRow(t, project, now, done, changed, x);
          RowBelow(t, project, now, e, x, changed[x]);
        }
        if x in more {
          GroupsRow(t, project, now, {d}, more, x);
          RowBelow(t, project, now, e, x, more[x]);
        }
      }
      SameComputed(a, t, project, now, e, part, all);
    }
  }

  lemma GroupsRow(t: Table, project: string, now: int, done: set<Option<Id>>, changed: map<Id, Card>, x: Id)
    requires Groups(t, project, now, done, changed) && x in changed
    ensures RowOf(t, project, now, x, changed[x]) && changed[x].parent in done
  {
    hide RowOf, GroupOrder, IsHead, Destination;
  }

  lemma SameComputed(a: Arithmetic, t: Table, project: string, now: int, d: Option<Id>, part: map<Id, Card>,
                     all: map<Id, Card>)
    requires WellKeyed(t) && GroupComputes(a, t, project, now, d, part)
    requires forall x :: IsBelow(t, project, d, x) ==> (x in all <==> x in part) && (x in all ==> all[x] == part[x])
    ensures GroupComputes(a, t, project, now, d, all)
  {
    hide BlocksOf, Arrange, Siblings, IsBelow, WellKeyed;
    var blocks, done :| GroupComputed(a, t, project, now, d, part, blocks, done);
    assert GroupComputed(a, t, project, now, d, all, blocks, done);
  }

  lemma PlanComputes(a: Arithmetic, t: Table, project: string, now: int, changed: map<Id, Card>, placements: seq<Card>)
    requires WellKeyed(t) && Groups(t, project, now, Destinations(t, project), changed)
    requires forall c :: c in placements <==> c.id in changed && changed[c.id] == c
    requires forall d :: d in Destinations(t, project) ==> GroupComputes(a, t, project, now, d, changed)
    ensures Computes(a, t, project, now, Plan(placements, Heads(t, project), Looping(t, project)))
  {
    hide GroupComputes, Destinations, WellKeyed, ById, Groups;
    forall x | x in changed
      ensures changed[x].id == x && changed[x] in placements && changed[x].parent in Destinations(t, project)
    {
      GroupsRow(t, project, now, Destinations(t, project), changed, x);
    }
    forall x | x in ById(placements)
      ensures x in changed && ById(placements)[x] == changed[x]
    {
      assert ById(placements)[x] in placements;
    }
    assert ById(placements) == changed;
  }

  lemma NoGroups(t: Table, project: string, now: int)
    ensures Groups(t, project, now, {}, map[])
  {
  }

  lemma CollectedAll(t: Table, project: string, heads: map<Id, Head>, cycles: set<Id>)
    requires Collected(t, project, t.Keys, heads, cycles)
    ensures heads.Keys == Heads(t, project) && cycles == Looping(t, project)
    ensures (set x | x in heads :: heads[x].dest) == Destinations(t, project)
  {
    hide IsHead, Destination, WalkLoops, Anchor;
    var dests := set x | x in heads :: heads[x].dest;
    assert heads.Keys == Heads(t, project);
    forall x | x in heads
      ensures heads[x].dest in Destinations(t, project) && Destination(t, x) in dests
    {
    }
  }

  lemma HeadsOfGroup(t: Table, project: string, d: Option<Id>, heads: map<Id, Head>, cycles: set<Id>, mine: map<Id,
                     Head>)
    requires WellKeyed(t) && Collected(t, project, t.Keys, heads, cycles)
    requires d in (set x | x in heads :: heads[x].dest)
    requires mine == map x | x in heads && heads[x].dest == d :: heads[x]
    ensures HeadsFor(t, project, d, mine) && (d.None? || LiveIn(t, project, d.value))
    ensures forall x :: x in mine.Keys <==> x in t && IsHead(t, project, x) && Destination(t, x) == d
  {
    hide IsHead, Destination, WalkLoops, Anchor;
    var h :| h in heads && heads[h].dest == d;
    DestinationLive(t, project, h);
  }

  /** The values of the map of changed cards. */
  method RowsOf(t: Table, project: string, now: int, ghost done: set<Option<Id>>, changed: map<Id, Card>)
    returns (placements: seq<Card>)
    requires Groups(t, project, now, done, changed)
    ensures forall c :: c in placements <==> c.id in changed && changed[c.id] == c
  {
    hide IsHead, Destination, GroupOrder;
    assert forall x :: x in changed ==> RowOf(t, project, now, x, changed[x]);
    placements := [];
    var todo := changed.Keys;
    while todo != {}
      invariant todo <= changed.Keys
      invariant forall c :: c in placements <==> c.id in changed && c.id !in todo && changed[c.id] == c
    {
      var x :| x in todo;
      todo := todo - {x};
      placements := placements + [changed[x]];
    }
  }
}

/** The card table as the store updates it: the lifecycle methods of src/card/CardStore.cpp
    carried out in place. Every method is a step of `Lifecycle.Step`. */
module CardStore {
  import opened Common
  import opened Cards
  import opened Ancestry
  import opened Placement
  import opened Intents
  import opened Lifecycle
  import opened MoveOrder
  import opened Repair

  predicate IsChild(t: Table, project: string, x: Id, p: Id)
  {
    InProject(t, project, x) && t[x].parent == Some(p)
  }

  lemma ChildInSubtree(t: Table, id: Id, p: Id, x: Id)
    requires id in t && IsChild(t, t[id].project, x, p) && p in t && InSubtree(t, p, id)
    ensures InSubtree(t, x, id)
  {
    var project := t[id].project;
    if p == id {
      assert Ancestor(t, project, t[x].parent, 0, id);
    } else {
      var k: nat :| Ancestor(t, project, t[p].parent, k, id);
      assert Ancestor(t, project, t[x].parent, k + 1, id);
    }
  }

  /** A set of cards closed under taking children holds the whole subtree. */
  lemma {:induction false} SubtreeClosed(t: Table, id: Id, visited: set<Id>, x: Id, k: nat)
    requires id in t && id in visited && InProject(t, t[id].project, x)
    requires forall y, p :: p in visited && IsChild(t, t[id].project, y, p) ==> y in visited
    requires Ancestor(t, t[id].project, t[x].parent, k, id)
    ensures x in visited
    decreases k
  {
    if k == 0 {
      assert IsChild(t, t[id].project, x, id);
    } else {
      SubtreeClosed(t, id, visited, t[x].parent.value, k - 1);
      assert IsChild(t, t[id].project, x, t[x].parent.value);
    }
  }

  /** Everything below `id`, through live and trashed cards alike: the walk of
      `CardStore::trash` with its stack and visited set. */
  method CollectSubtree(t: Table, id: Id) returns (visited: set<Id>)
    requires WellKeyed(t) && id in t
    ensures forall x :: x in visited <==> x in t && InSubtree(t, x, id)
  {
    hide InSubtree;
    var project := t[id].project;
    visited := {id};
    var pending := [id];
    SelfInSubtree(t, id);
    while pending != []
      invariant id in visited && visited <= t.Keys
      invariant forall x :: x in pending ==> x in visited
      invariant forall x :: x in visited ==> InSubtree(t, x, id)
      invariant forall x, p :: p in visited && p !in pending && IsChild(t, project, x, p) ==> x in visited
      decreases t.Keys - visited, |pending|
    {
      var parent := pending[|pending| - 1];
      ghost var stack, before := pending, visited;
      pending := pending[..|pending| - 1];
      assert stack == pending + [parent];
      var kids := set x | x in t && IsChild(t, project, x, parent) && x !in visited;
      while kids != {}
        invariant kids <= t.Keys - visited && before <= visited <= t.Keys
        invariant forall x :: x in kids ==> IsChild(t, project, x, parent)
        invariant forall x :: x in pending ==> x in visited
        invariant forall x :: x in visited ==> InSubtree(t, x, id)
        invariant forall x :: IsChild(t, project, x, parent) ==> x in visited || x in kids
        invariant forall x, p :: p in visited && p !in pending && p != parent && IsChild(t, project, x, p) ==>
          x in visited
        invariant visited == before ==> pending == stack[..|stack| - 1]
        decreases kids
      {
        var child :| child in kids;
        ChildInSubtree(t, id, parent, child);
        kids := kids - {child};
        visited := visited + {child};
        pending := pending + [child];
      }
    }
    forall x | x in t && InSubtree(t, x, id)
      ensures x in visited
    {
      if x != id {
        var k := SubtreeSteps(t, id, x);
        SubtreeClosed(t, id, visited, x, k);
      }
    }
  }

  lemma SelfInSubtree(t: Table, id: Id)
    requires id in t
    ensures InSubtree(t, id, id)
  {
  }

  lemma SubtreeSteps(t: Table, id: Id, x: Id) returns (k: nat)
    requires id in t && x in t && InSubtree(t, x, id) && x != id
    ensures InProject(t, t[id].project, x) && Ancestor(t, t[id].project, t[x].parent, k, id)
  {
    assert Below(t, t[id].project, x, id);
    k :| Ancestor(t, t[id].project, t[x].parent, k, id);
  }

  method ComputeNextKey(t: Table, project: string, parent: Option<Id>) returns (key: real)
    requires WellKeyed(t)
    ensures key == NextKey(t, project, parent)
  {
    var s := ListSiblings(t, project, parent);
    key := if s == [] then 0.0 else s[|s| - 1].key + 1.0;
  }

  method ComputeValidateParent(t: Table, card: Card) returns (r: Result<Option<Id>>)
    requires WellKeyed(t)
    ensures r == ValidateParent(t, card)
  {
    r := ComputeReachableParent(t, card);
    if r.Ok? && r.value != card.parent {
      r := Err(NOT_FOUND);
    }
  }

  method ComputePromoted(a: Arithmetic, t: Table, card: Card, now: int) returns (r: Result<Placed>)
    requires WellKeyed(t)
    ensures r == Promoted(a, t, card, now)
  {
    hide Siblings, InsertBlock, Without, LowerBound, ReachableParent;
    var d := ComputeReachableParent(t, card);
    if d.Err? {
      return Err(d.error);
    }
    var children := ListSiblings(t, card.project, Some(card.id));
    var around := ListSiblings(t, card.project, d.value);
    var dest := Without(around, card.id);
    var at := LowerBound(TreeOrder, dest, card.(parent := d.value));
    r := InsertBlockInto(a, dest, at, children, d.value, now);
  }

  method ComputeRestoredPlacement(a: Arithmetic, t: Table, restored: Card, now: int) returns (r: Result<Table>)
    requires WellKeyed(t)
    ensures r == RestoredPlacement(a, t, restored, now)
  {
    hide Siblings, InsertBlock, Without, LowerBound, ReachableParent, SaveAll;
    var d := ComputeReachableParent(t, restored);
    if d.Err? {
      return Err(d.error);
    }
    var card := restored.(parent := d.value);
    var around := ListSiblings(t, card.project, d.value);
    var dest := Without(around, card.id);
    if !KeyTaken(dest, card.key) {
      return Ok(Save(t, card));
    }
    var placed := InsertBlockInto(a, dest, LowerBound(TreeOrder, dest, card), [card], d.value, now);
    if placed.Err? {
      return Err(placed.error);
    }
    r := Ok(SaveAll(t, placed.value.changed));
  }

  method ComputeResolve(t: Table, project: string, id: Id, q: Request) returns (r: Result<Target>)
    requires WellKeyed(t)
    ensures r == Resolve(t, project, id, q)
  {
    hide Siblings, Without, IsDescendantOf, GoodTarget;
    if id !in t || !t[id].Live() {
      return Err("card_not_found");
    }
    if t[id].project != project {
      return Err("cross_project_move_forbidden");
    }
    match q.intent
    case Into =>
      if q.target.None? { return Err("missing_target_card_id"); }
      if !LiveIn(t, project, q.target.value) { return Err(NOT_FOUND); }
      var below := ComputeIsDescendantOf(t, project, q.target, id);
      if below { return Err(CYCLE); }
      var s := ListSiblings(t, project, q.target);
      var dest := Without(s, id);
      return Ok(Target(q.target, dest, Some(|dest|)));
    case Before => r := ComputeBeside(t, project, id, q);
    case After => r := ComputeBeside(t, project, id, q);
    case UpLevel =>
      if t[id].parent.None? { return Err("already_at_project_root"); }
      var p := t[id].parent.value;
      var parent := if LiveIn(t, project, p) then t[p].parent else None;
      var s := ListSiblings(t, project, parent);
      var dest := Without(s, id);
      return Ok(Target(parent, dest, Some(|dest|)));
    case _ => r := ComputeWithin(t, project, id, q);
  }

  method ComputeBeside(t: Table, project: string, id: Id, q: Request) returns (r: Result<Target>)
    requires WellKeyed(t)
    ensures r == ResolveBeside(t, project, id, q)
  {
    hide Siblings, Without, GoodTarget;
    if q.target.None? { return Err("missing_target_card_id"); }
    if !LiveIn(t, project, q.target.value) { return Err(NOT_FOUND); }
    var parent := t[q.target.value].parent;
    var s := ListSiblings(t, project, parent);
    var dest := Without(s, id);
    var at := IndexOf(dest, q.target.value);
    if at == |dest| { return Err("invalid_target"); }
    return Ok(Target(parent, dest, Some(if q.intent.After? then at + 1 else at)));
  }

  method ComputeWithin(t: Table, project: string, id: Id, q: Request) returns (r: Result<Target>)
    requires WellKeyed(t) && LiveIn(t, project, id)
    ensures r == ResolveWithin(t, project, id, q)
  {
    hide Siblings, Without, GoodTarget;
    var parent := if q.hasParent || q.parent.Some? then q.parent else t[id].parent;
    if parent.Some? && !LiveIn(t, project, parent.value) { return Err(NOT_FOUND); }
    var all := ListSiblings(t, project, parent);
    var dest := Without(all, id);
    if q.intent.ToStart? || q.intent.ToEnd? {
      if dest == [] && parent == t[id].parent { return Ok(Target(parent, dest, None)); }
      return Ok(Target(parent, dest, Some(if q.intent.ToStart? then 0 else |dest|)));
    }
    var i := IndexOf(all, id);
    if i == |all| { return Ok(Target(parent, dest, None)); }
    var at: Option<nat> := None;
    if q.intent.Left? {
      if i > 0 { at := Some(i - 1); }
    } else if i + 1 < |all| {
      at := Some(i + 1);
    }
    return Ok(Target(parent, dest, at));
  }

  class Store {
    const arithmetic: Arithmetic
    var cards: Table

    ghost predicate Valid()
      reads this
    {
      WellKeyed(cards)
    }

    constructor (a: Arithmetic)
      ensures Valid() && arithmetic == a && cards == map[] && Forest(cards)
    {
      arithmetic := a;
      cards := map[];
    }

    /** What every method below promises, however files and Git behave: the table becomes exactly
        what `op` makes of it, success is reported exactly when the operation was accepted and
        nothing failed, a rejection changes nothing, and a forest stays a forest. */
    twostate predicate Does(op: Op, outside: Outside, ok: bool)
      reads this
      requires old(Valid())
    {
      && Valid() && cards == Performed(arithmetic, old(cards), op, outside)
      && ok == (Apply(arithmetic, old(cards), op).Ok? && outside.Fine?)
      && (Apply(arithmetic, old(cards), op).Err? ==> cards == old(cards))
      && (old(Forest(cards)) ==> Forest(cards))
    }

    /** Installs the outcome of one operation. */
    method Finish(op: Op, outside: Outside, r: Result<Table>) returns (ok: bool)
      requires Valid() && r == Apply(arithmetic, cards, op)
      requires r.Ok? ==> WellKeyed(r.value)
      modifies this
      ensures Does(op, outside, ok)
    {
      hide Apply, Step, Forest, WellKeyed;
      ghost var before := cards;
      ok := r.Ok? && outside.Fine?;
      if r.Ok? && Lasts(op, outside) { cards := r.value; }
      StepIs(arithmetic, before, op, if r.Ok? then r.value else before);
    }

    method Create(card: Card, key: Option<real>, outside: Outside) returns (ok: bool)
      requires Valid()
      modifies this
      ensures Does(OpCreate(card, key), outside, ok)
    {
      var valid := ComputeValidateParent(cards, card);
      var next := ComputeNextKey(cards, card.project, card.parent);
      var r: Result<Table>;
      if valid.Err? {
        r := Err(valid.error);
      } else if card.id in cards {
        r := Err("conflict: card_id already exists");
      } else {
        r := Ok(cards[card.id := card.(key := if key.Some? then key.value else next)]);
      }
      hide ValidateParent, NextKey, Does;
      ok := Finish(OpCreate(card, key), outside, r);
    }

    method Move(id: Id, hasParent: bool, parent: Option<Id>, key: Option<real>, now: int, outside: Outside)
      returns (ok: bool)
      requires Valid()
      modifies this
      ensures Does(OpMove(id, hasParent, parent, key, now), outside, ok)
    {
      hide ValidateParent, NextKey;
      var r: Result<Table>;
      if id !in cards {
        r := Err("card not found");
      } else if !cards[id].Live() {
        r := Err("card already deleted");
      } else {
        var card := cards[id];
        var next := if hasParent then parent else card.parent;
        var valid := ComputeValidateParent(cards, card.(parent := next));
        if valid.Err? {
          r := Err(valid.error);
        } else {
          var last := ComputeNextKey(cards, card.project, next);
          var sort := if key.Some? then key.value
                      else if hasParent && next != card.parent then last
                      else card.key;
          r := if next == card.parent && sort == card.key then Ok(cards)
               else Ok(cards[id := card.(parent := next, key := sort, updatedAt := now)]);
        }
      }
      hide Does;
      ok := Finish(OpMove(id, hasParent, parent, key, now), outside, r);
    }

    method MoveTo(project: string, id: Id, q: Request, now: int, outside: Outside) returns (ok: bool)
      requires Valid()
      modifies this
      ensures Does(OpMoveTo(project, id, q, now), outside, ok)
    {
      hide ValidateParent, Resolve, InsertBlock, SaveAll, Unmoved, GoodTarget;
      var r: Result<Table>;
      var target := ComputeResolve(cards, project, id, q);
      if target.Err? {
        r := Err(target.error);
      } else if target.value.at.None? {
        r := Ok(cards);
      } else {
        GoodBounds(cards, project, id, q);
        var placed := InsertBlockInto(arithmetic, target.value.dest, target.value.at.value, [cards[id]],
                                      target.value.parent, now);
        if placed.Err? {
          r := Err(placed.error);
        } else if Unmoved(cards, id, placed.value.changed) {
          r := Ok(cards);
        } else {
          var valid := ComputeValidateParent(cards, cards[id].(parent := target.value.parent));
          r := if valid.Err? then Err(valid.error) else Ok(SaveAll(cards, placed.value.changed));
        }
      }
      assert r == Apply(arithmetic, cards, OpMoveTo(project, id, q, now));
      MoveToWellKeyed(arithmetic, cards, project, id, q, now);
      hide Does, Apply;
      ok := Finish(OpMoveTo(project, id, q, now), outside, r);
    }

    method Trash(id: Id, now: int, outside: Outside) returns (ok: bool)
      requires Valid()
      modifies this
      ensures Does(OpTrash(id, now), outside, ok)
    {
      hide Promoted, WriteBack;
      var r: Result<Table>;
      if id !in cards {
        r := Err("card not found");
      } else if !cards[id].Live() {
        r := Err("card already deleted");
      } else {
        var placed := ComputePromoted(arithmetic, cards, cards[id], now);
        r := if placed.Err? then Err(placed.error)
             else Ok(WriteBack(cards, cards[id].(deletedAt := Some(now), updatedAt := now), placed.value.changed));
        if placed.Ok? {
          PromoteWellKeyed(arithmetic, cards, id, cards[id].(deletedAt := Some(now), updatedAt := now), now);
        }
      }
      hide Does;
      ok := Finish(OpTrash(id, now), outside, r);
    }

    method TrashSubtree(id: Id, now: int, outside: Outside) returns (ok: bool)
      requires Valid()
      modifies this
      ensures Does(OpTrashSubtree(id, now), outside, ok)
    {
      hide InSubtree;
      var r: Result<Table>;
      if id !in cards {
        r := Err("card not found");
      } else if !cards[id].Live() {
        r := Err("card already deleted");
      } else {
        var subtree := CollectSubtree(cards, id);
        var t := cards;
        var todo := subtree;
        while todo != {}
          invariant todo <= subtree && t.Keys == cards.Keys
          invariant forall x :: x in cards ==>
            t[x] == if x in subtree && x !in todo && cards[x].Live() then Trashed(cards[x], now) else cards[x]
        {
          var x :| x in todo;
          todo := todo - {x};
          if cards[x].Live() {
            t := t[x := Trashed(cards[x], now)];
          }
        }
        r := Ok(t);
        assert t == Lifecycle.TrashSubtree(cards, id, now).value;
      }
      hide Does;
      ok := Finish(OpTrashSubtree(id, now), outside, r);
    }

    method Restore(id: Id, now: int, outside: Outside) returns (ok: bool)
      requires Valid()
      modifies this
      ensures Does(OpRestore(id, now), outside, ok)
    {
      hide RestoredPlacement;
      var r: Result<Table>;
      if id !in cards {
        r := Err("card not found");
      } else if cards[id].Live() {
        r := Err("card is not deleted");
      } else {
        var card := cards[id].(deletedAt := None, updatedAt := now);
        r := ComputeRestoredPlacement(arithmetic, cards, card, now);
        if r.Ok? { RestoredWellKeyed(arithmetic, cards, card, now); }
      }
      hide Does;
      ok := Finish(OpRestore(id, now), outside, r);
    }

    method RestoreVersion(id: Id, h: Historical, now: int, outside: Outside) returns (ok: bool)
      requires Valid()
      modifies this
      ensures Does(OpRestoreVersion(id, h, now), outside, ok)
    {
      hide RestoredPlacement, Promoted, WriteBack;
      var r: Result<Table>;
      if id !in cards {
        r := Err("card not found");
      } else if h.Unreadable? {
        r := Err("historical card content is missing");
      } else {
        var card := Card(id, cards[id].project, h.title, h.parent, h.key, now, if h.inTrash then Some(now) else None);
        if h.inTrash {
          var placed := ComputePromoted(arithmetic, cards, cards[id], now);
          r := if placed.Err? then Err(placed.error) else Ok(WriteBack(cards, card, placed.value.changed));
          if placed.Ok? { PromoteWellKeyed(arithmetic, cards, id, card, now); }
        } else {
          r := ComputeRestoredPlacement(arithmetic, cards, card, now);
          if r.Ok? { RestoredWellKeyed(arithmetic, cards, card, now); }
        }
      }
      hide Does;
      ok := Finish(OpRestoreVersion(id, h, now), outside, r);
    }

    method HardDelete(id: Id, outside: Outside) returns (ok: bool)
      requires Valid()
      modifies this
      ensures Does(OpHardDelete(id), outside, ok)
    {
      var r := Lifecycle.HardDelete(cards, id);
      hide Does;
      ok := Finish(OpHardDelete(id), outside, r);
    }

    /** `repair_hierarchy`: the plan, computed and written in one operation. */
    method RepairHierarchy(project: string, now: int) returns (r: Result<Plan>)
      requires Valid()
      modifies this
      ensures Valid() && (Roomy(arithmetic) ==> r.Ok?)
      ensures r.Err? ==> cards == old(cards) && Fails(arithmetic, old(cards), project, now)
      ensures r.Ok? ==>
        && IsRepair(old(cards), project, now, r.value) && Computes(arithmetic, old(cards), project, now, r.value)
        && cards == SaveAll(old(cards), r.value.placements)
    {
      r := PlanHierarchyRepair(arithmetic, cards, project, now);
      if r.Ok? {
        RepairRows(cards, project, now, r.value);
        hide IsRepair, SaveAll, Computes, Roomy, Fails;
        cards := SaveAll(cards, r.value.placements);
      }
    }
  }

  lemma StepIs(a: Arithmetic, t: Table, op: Op, t': Table)
    requires WellKeyed(t)
    requires t' == if Apply(a, t, op).Ok? then Apply(a, t, op).value else t
    ensures t' == Step(a, t, op)
    ensures Forest(t) ==> Forest(t')
  {
    hide Apply, Forest;
    if Forest(t) { StepKeepsForest(a, t, op); }
  }

  lemma GoodBounds(t: Table, project: string, id: Id, q: Request)
    requires WellKeyed(t) && Resolve(t, project, id, q).Ok?
    ensures id in t
    ensures var target := Resolve(t, project, id, q).value; target.at.Some? ==> target.at.value <= |target.dest|
  {
    hide Resolve;
  }

  lemma MoveToWellKeyed(a: Arithmetic, t: Table, project: string, id: Id, q: Request, now: int)
    requires WellKeyed(t)
    ensures var r := Lifecycle.MoveTo(a, t, project, id, q, now); r.Ok? ==> WellKeyed(r.value)
  {
    var r := Lifecycle.MoveTo(a, t, project, id, q, now);
    if r.Ok? && r.value != t {
      GoodBounds(t, project, id, q);
      var target := Resolve(t, project, id, q).value;
      assert target.dest == Without(Siblings(t, project, target.parent), id);
      var p := InsertBlock(a, target.dest, target.at.value, [t[id]], target.parent, now).value;
      assert r.value == SaveAll(t, p.changed) && LiveIn(t, project, id);
      hide *;
      PlacedReadBack(a, t, project, target.parent, target.dest, target.at.value, id, now, p);
      ReadsBackKeyed(t, SaveAll(t, p.changed), project, target.parent, id, p.list);
    }
  }

  lemma ReadsBackKeyed(t: Table, t': Table, project: string, parent: Option<Id>, id: Id, list: seq<Card>)
    requires ReadsBack(t, t', project, parent, id, list)
    ensures WellKeyed(t')
  {
  }

  lemma PromoteWellKeyed(a: Arithmetic, t: Table, id: Id, row: Card, now: int)
    requires WellKeyed(t) && id in t && row.id == id && row.project == t[id].project && !row.Live()
    requires Promoted(a, t, t[id], now).Ok?
    ensures WellKeyed(WriteBack(t, row, Promoted(a, t, t[id], now).value.changed))
  {
    assert ReachableParent(t, t[id]).Ok?;
    hide *;
    PromotionRows(a, t, id, row, now, ReachableParent(t, t[id]).value, Promoted(a, t, t[id], now).value);
  }

  lemma RestoredWellKeyed(a: Arithmetic, t: Table, card: Card, now: int)
    requires WellKeyed(t) && card.id in t && t[card.id].project == card.project && card.Live()
    requires RestoredPlacement(a, t, card, now).Ok?
    ensures WellKeyed(RestoredPlacement(a, t, card, now).value)
  {
    assert ReachableParent(t, card).Ok?;
    hide *;
    RestoreOrder(a, t, card, now, ReachableParent(t, card).value, RestoredPlacement(a, t, card, now).value);
  }
}

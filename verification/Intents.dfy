/** Placement intents: src/card/CardPlacementResolver.cpp. */
module Intents {
  import opened Common
  import opened Cards
  import opened Ancestry
  import opened Placement

  datatype Intent = Into | Before | After | ToStart | ToEnd | Left | Right | UpLevel

  datatype Request = Request(intent: Intent, target: Option<Id>, hasParent: bool, parent: Option<Id>)

  /** Where the card goes: the new parent, its live children without the card, and the
      index among them; no index means that nothing moves. */
  datatype Target = Target(parent: Option<Id>, dest: seq<Card>, at: Option<nat>)

  /** A row of the project's card map. */
  predicate InProject(t: Table, project: string, id: Id)
  {
    id in t && t[id].project == project
  }

  predicate LiveIn(t: Table, project: string, id: Id)
  {
    InProject(t, project, id) && t[id].Live()
  }

  /** `is_descendant_of`, which gives up after 1024 steps. */
  function IsDescendantOf(t: Table, project: string, candidate: Option<Id>, id: Id, guard: nat): bool
    requires guard <= 1024
    decreases 1024 - guard
  {
    if candidate.None? || guard == 1024 then false
    else if candidate.value == id then true
    else if !InProject(t, project, candidate.value) then false
    else IsDescendantOf(t, project, t[candidate.value].parent, id, guard + 1)
  }

  method ComputeIsDescendantOf(t: Table, project: string, start: Option<Id>, id: Id) returns (r: bool)
    ensures r == IsDescendantOf(t, project, start, id, 0)
  {
    var candidate, guard := start, 0;
    while candidate.Some? && guard < 1024
      invariant guard <= 1024
      invariant IsDescendantOf(t, project, start, id, 0) == IsDescendantOf(t, project, candidate, id, guard)
    {
      if candidate.value == id { return true; }
      if !InProject(t, project, candidate.value) { return false; }
      candidate := t[candidate.value].parent;
      guard := guard + 1;
    }
    return false;
  }

  /** The guard only ever misses: an answer of `true` is a real ancestor. */
  lemma {:induction false} DescendantIsReal(t: Table, project: string, candidate: Option<Id>, id: Id, guard: nat)
    returns (k: nat)
    requires guard <= 1024 && IsDescendantOf(t, project, candidate, id, guard)
    ensures Ancestor(t, project, candidate, k, id)
    decreases 1024 - guard
  {
    if candidate.value == id {
      k := 0;
    } else {
      k := DescendantIsReal(t, project, t[candidate.value].parent, id, guard + 1);
      k := k + 1;
    }
  }

  /** Position of the card with this id, or the length if there is none. */
  function IndexOf(s: seq<Card>, id: Id): (i: nat)
    ensures i <= |s| && (i < |s| ==> s[i].id == id)
    ensures i == |s| <==> forall c :: c in s ==> c.id != id
    ensures forall k :: 0 <= k < i ==> s[k].id != id
  {
    if s == [] then 0
    else if s[0].id == id then 0
    else
      assert forall c :: c in s <==> c == s[0] || c in s[1..];
      1 + IndexOf(s[1..], id)
  }

  /** The index fits the destination, which is the new parent's children without the card. */
  ghost predicate GoodTarget(t: Table, project: string, id: Id, r: Result<Target>)
    requires WellKeyed(t)
  {
    r.Ok? && r.value.at.Some? ==>
      r.value.at.value <= |r.value.dest| && r.value.dest == SiblingsFor(t, project, r.value.parent, id)
  }

  ghost function SiblingsFor(t: Table, project: string, parent: Option<Id>, exclude: Id): seq<Card>
    requires WellKeyed(t)
  {
    Without(Siblings(t, project, parent), exclude)
  }

  /** Leaving one sibling out closes the list over its place. */
  lemma SiblingsCut(t: Table, project: string, parent: Option<Id>, id: Id)
    requires WellKeyed(t)
    ensures var all := Siblings(t, project, parent);
      var i := IndexOf(all, id);
      i < |all| ==> Without(all, id) == all[..i] + all[i + 1..]
  {
    hide Siblings, Without, Less;
    SiblingsMember(t, project, parent);
    var all := Siblings(t, project, parent);
    var i := IndexOf(all, id);
    if i < |all| {
      forall k | 0 <= k < |all| && k != i
        ensures all[k].id != all[i].id
      {
        assert all[k] in all && all[i] in all;
        if all[k].id == all[i].id { SortedDistinct(TreeOrder, all, k, i); }
      }
      WithoutCuts(all, i);
    }
  }

  ghost function ResolveInto(t: Table, project: string, id: Id, q: Request): (r: Result<Target>)
    requires WellKeyed(t)
    ensures GoodTarget(t, project, id, r)
  {
    if q.target.None? then Err("missing_target_card_id")
    else if !LiveIn(t, project, q.target.value) then Err(NOT_FOUND)
    else if IsDescendantOf(t, project, q.target, id, 0) then Err(CYCLE)
    else
      var dest := SiblingsFor(t, project, q.target, id);
      Ok(Target(q.target, dest, Some(|dest|)))
  }

  ghost function ResolveBeside(t: Table, project: string, id: Id, q: Request): (r: Result<Target>)
    requires WellKeyed(t)
    ensures GoodTarget(t, project, id, r)
  {
    if q.target.None? then Err("missing_target_card_id")
    else if !LiveIn(t, project, q.target.value) then Err(NOT_FOUND)
    else
      var parent := t[q.target.value].parent;
      var dest := SiblingsFor(t, project, parent, id);
      var at := IndexOf(dest, q.target.value);
      if at == |dest| then Err("invalid_target")
      else Ok(Target(parent, dest, Some(if q.intent.After? then at + 1 else at)))
  }

  ghost function ResolveWithin(t: Table, project: string, id: Id, q: Request): (r: Result<Target>)
    requires WellKeyed(t) && LiveIn(t, project, id)
    ensures GoodTarget(t, project, id, r)
  {
    var parent := if q.hasParent || q.parent.Some? then q.parent else t[id].parent;
    if parent.Some? && !LiveIn(t, project, parent.value) then Err(NOT_FOUND)
    else
      var dest := SiblingsFor(t, project, parent, id);
      if q.intent.ToStart? || q.intent.ToEnd? then
        if dest == [] && parent == t[id].parent then Ok(Target(parent, dest, None))
        else Ok(Target(parent, dest, Some(if q.intent.ToStart? then 0 else |dest|)))
      else
        var all := Siblings(t, project, parent);
        var i := IndexOf(all, id);
        if i == |all| then Ok(Target(parent, dest, None))
        else
          SiblingsCut(t, project, parent, id);
          if q.intent.Left? then Ok(Target(parent, dest, if i > 0 then Some(i - 1) else None))
          else Ok(Target(parent, dest, if i + 1 < |all| then Some(i + 1) else None))
  }

  ghost function ResolveUp(t: Table, project: string, id: Id): (r: Result<Target>)
    requires WellKeyed(t) && LiveIn(t, project, id)
    ensures GoodTarget(t, project, id, r)
  {
    if t[id].parent.None? then Err("already_at_project_root")
    else
      var p := t[id].parent.value;
      var parent := if LiveIn(t, project, p) then t[p].parent else None;
      var dest := SiblingsFor(t, project, parent, id);
      Ok(Target(parent, dest, Some(|dest|)))
  }

  /** `CardPlacementResolver::resolve` up to the choice of place. */
  ghost function Resolve(t: Table, project: string, id: Id, q: Request): (r: Result<Target>)
    requires WellKeyed(t)
    ensures r.Ok? ==> LiveIn(t, project, id) && GoodTarget(t, project, id, r)
  {
    if id !in t || !t[id].Live() then Err("card_not_found")
    else if t[id].project != project then Err("cross_project_move_forbidden")
    else
      match q.intent
      case Into => ResolveInto(t, project, id, q)
      case Before => ResolveBeside(t, project, id, q)
      case After => ResolveBeside(t, project, id, q)
      case ToStart => ResolveWithin(t, project, id, q)
      case ToEnd => ResolveWithin(t, project, id, q)
      case Left => ResolveWithin(t, project, id, q)
      case Right => ResolveWithin(t, project, id, q)
      case UpLevel => ResolveUp(t, project, id)
  }
}

/** The lifecycle operations of src/card/CardStore.cpp as functions of the card table,
    and what every sequence of them keeps. */
module Lifecycle {
  import opened Common
  import opened Cards
  import opened Ancestry
  import opened Placement
  import opened Intents

  // ----- create, move -----

  /** `CardRepo::next_sort_key`: one past the largest live sibling key. */
  ghost function NextKey(t: Table, project: string, parent: Option<Id>): real
    requires WellKeyed(t)
  {
    var s := Siblings(t, project, parent);
    if s == [] then 0.0 else s[|s| - 1].key + 1.0
  }

  ghost function Create(t: Table, card: Card, key: Option<real>): (r: Result<Table>)
    requires WellKeyed(t)
  {
    var valid := ValidateParent(t, card);
    if valid.Err? then Err(valid.error)
    else if card.id in t then Err("conflict: card_id already exists")
    else Ok(t[card.id := card.(key := if key.Some? then key.value else NextKey(t, card.project, card.parent))])
  }

  ghost function Move(t: Table, id: Id, hasParent: bool, parent: Option<Id>, key: Option<real>,
                      now: int): (r: Result<Table>)
    requires WellKeyed(t)
  {
    if id !in t then Err("card not found")
    else if !t[id].Live() then Err("card already deleted")
    else
      var card := t[id];
      var next := if hasParent then parent else card.parent;
      var valid := ValidateParent(t, card.(parent := next));
      if valid.Err? then Err(valid.error)
      else
        var sort := if key.Some? then key.value
                    else if hasParent && next != card.parent then NextKey(t, card.project, next)
                    else card.key;
        if next == card.parent && sort == card.key then Ok(t)
        else Ok(t[id := card.(parent := next, key := sort, updatedAt := now)])
  }

  ghost function MoveTo(a: Arithmetic, t: Table, project: string, id: Id, q: Request, now: int): (r: Result<Table>)
    requires WellKeyed(t)
  {
    var target := Resolve(t, project, id, q);
    if target.Err? then Err(target.error)
    else if target.value.at.None? then Ok(t)
    else
      var placed := InsertBlock(a, target.value.dest, target.value.at.value, [t[id]], target.value.parent, now);
      if placed.Err? then Err(placed.error)
      else if Unmoved(t, id, placed.value.changed) then Ok(t)
      else
        var valid := ValidateParent(t, t[id].(parent := target.value.parent));
        if valid.Err? then Err(valid.error) else Ok(SaveAll(t, placed.value.changed))
  }

  /** The card keeps its parent and key and no sibling changes: nothing is written. */
  predicate Unmoved(t: Table, id: Id, changed: seq<Card>)
    requires id in t
  {
    |changed| == 1 && changed[0].id == id && changed[0].parent == t[id].parent && changed[0].key == t[id].key
  }

  // ----- trash -----

  /** `promoted_card_children`: the placements that put a card's live children in its place. */
  ghost function Promoted(a: Arithmetic, t: Table, card: Card, now: int): (r: Result<Placed>)
    requires WellKeyed(t)
  {
    var d := ReachableParent(t, card);
    if d.Err? then Err(d.error)
    else
      var children := Siblings(t, card.project, Some(card.id));
      var dest := Without(Siblings(t, card.project, d.value), card.id);
      var at := LowerBound(TreeOrder, dest, card.(parent := d.value));
      InsertBlock(a, dest, at, children, d.value, now)
  }

  /** One journalled operation: the row of the card itself, then the placements. */
  function WriteBack(t: Table, card: Card, placements: seq<Card>): Table
  {
    SaveAll(Save(t, card), placements)
  }

  ghost function TrashPromote(a: Arithmetic, t: Table, id: Id, now: int): (r: Result<Table>)
    requires WellKeyed(t)
  {
    if id !in t then Err("card not found")
    else if !t[id].Live() then Err("card already deleted")
    else
      var placed := Promoted(a, t, t[id], now);
      if placed.Err? then Err(placed.error)
      else Ok(WriteBack(t, t[id].(deletedAt := Some(now), updatedAt := now), placed.value.changed))
  }

  /** `x` sits somewhere below `id`, through live and trashed cards of the project alike. */
  ghost predicate Below(t: Table, project: string, x: Id, id: Id)
  {
    InProject(t, project, x) && exists k: nat :: Ancestor(t, project, t[x].parent, k, id)
  }

  ghost predicate InSubtree(t: Table, x: Id, id: Id)
    requires id in t
  {
    x == id || Below(t, t[id].project, x, id)
  }

  function Trashed(c: Card, now: int): Card
  {
    c.(deletedAt := Some(now), updatedAt := now)
  }

  ghost function TrashSubtree(t: Table, id: Id, now: int): (r: Result<Table>)
  {
    if id !in t then Err("card not found")
    else if !t[id].Live() then Err("card already deleted")
    else Ok(map x | x in t :: if InSubtree(t, x, id) && t[x].Live() then Trashed(t[x], now) else t[x])
  }

  // ----- restore, delete -----

  predicate KeyTaken(dest: seq<Card>, key: real)
  {
    exists c :: c in dest && c.key == key
  }

  /** `restored_card_placement`, with the restored card itself among the changed rows. */
  ghost function RestoredPlacement(a: Arithmetic, t: Table, restored: Card, now: int): (r: Result<Table>)
    requires WellKeyed(t)
  {
    var d := ReachableParent(t, restored);
    if d.Err? then Err(d.error)
    else
      var card := restored.(parent := d.value);
      var dest := Without(Siblings(t, card.project, d.value), card.id);
      if !KeyTaken(dest, card.key) then Ok(Save(t, card))
      else
        var placed := InsertBlock(a, dest, LowerBound(TreeOrder, dest, card), [card], d.value, now);
        if placed.Err? then Err(placed.error) else Ok(SaveAll(t, placed.value.changed))
  }

  ghost function Restore(a: Arithmetic, t: Table, id: Id, now: int): (r: Result<Table>)
    requires WellKeyed(t)
  {
    if id !in t then Err("card not found")
    else if t[id].Live() then Err("card is not deleted")
    else RestoredPlacement(a, t, t[id].(deletedAt := None, updatedAt := now), now)
  }

  /** The card file found at the historical commit, live or in Trash. */
  datatype Historical = Unreadable | Version(title: string, parent: Option<Id>, key: real, inTrash: bool)

  ghost function RestoreVersion(a: Arithmetic, t: Table, id: Id, h: Historical, now: int): (r: Result<Table>)
    requires WellKeyed(t)
  {
    if id !in t then Err("card not found")
    else if h.Unreadable? then Err("historical card content is missing")
    else
      var card := Card(id, t[id].project, h.title, h.parent, h.key, now, if h.inTrash then Some(now) else None);
      if h.inTrash then
        var placed := Promoted(a, t, t[id], now);
        if placed.Err? then Err(placed.error) else Ok(WriteBack(t, card, placed.value.changed))
      else RestoredPlacement(a, t, card, now)
  }

  function HardDelete(t: Table, id: Id): (r: Result<Table>)
  {
    if id !in t then Err("card not found")
    else if t[id].Live() then Err("card is not deleted")
    else Ok(t - {id})
  }

  // ----- rows after a placement -----

  /** Rows other than `except` keep their parent, project and liveness. */
  ghost predicate SamePlaces(t: Table, t': Table, except: seq<Id>)
  {
    forall x :: x in t && x !in except ==>
      x in t' && t'[x].parent == t[x].parent && t'[x].project == t[x].project && t'[x].Live() == t[x].Live()
  }

  /** The rows of `moved` are live children of `d`. */
  ghost predicate HangBelow(t': Table, moved: seq<Id>, project: string, d: Option<Id>)
  {
    forall x :: x in moved ==> x in t' && ChildOf(t'[x], project, d)
  }

  /** Only keys and stamps of existing rows change, apart from the block's parent. */
  lemma PlacementRegrafts(t: Table, project: string, parent: Option<Id>, dest: seq<Card>, at: nat,
                          block: seq<Card>, now: int, p: Placed)
    requires WellKeyed(t) && IsDestination(t, project, parent, block, dest) && IsBlock(t, project, block)
    requires at <= |dest| && IsPlacement(Spliced(dest, at, block, parent), at, at + |block|, now, p)
    ensures WellKeyed(SaveAll(t, p.changed)) && SaveAll(t, p.changed).Keys == t.Keys
    ensures SamePlaces(t, SaveAll(t, p.changed), Ids(block))
    ensures HangBelow(SaveAll(t, p.changed), Ids(block), project, parent)
  {
    var t' := SaveAll(t, p.changed);
    PlacementRows(t, project, parent, dest, at, block, now, p);
    SaveAllRows(t, p.changed);
    forall x | x in t && x !in Ids(block)
      ensures t'[x].parent == t[x].parent && t'[x].project == t[x].project && t'[x].Live() == t[x].Live()
    {
      if c :| c in p.changed && c.id == x {
        assert t'[c.id] == c && t[c.id] in dest;
      }
    }
    forall x | x in Ids(block)
      ensures x in t' && ChildOf(t'[x], project, parent)
    {
      PlacementCovers(t, project, parent, dest, at, block, now, p, x);
      var c :| c in p.changed && c.id == x;
      assert t'[c.id] == c;
    }
  }

  lemma DestinationSorted(t: Table, project: string, parent: Option<Id>, c: Card)
    requires WellKeyed(t)
    ensures Sorted(TreeOrder, Without(Siblings(t, project, parent), c.id))
  {
    hide Siblings;
    WithoutSorted(TreeOrder, Siblings(t, project, parent), c.id);
  }

  /** Placing one card of the project below a reachable parent keeps the forest. */
  lemma PlaceOneKeepsForest(a: Arithmetic, t: Table, card: Card, at: nat, now: int)
    requires WellKeyed(t) && Forest(t)
    requires card.id in t && t[card.id].project == card.project && card.Live()
    requires Reachable(t, card.project, card.parent, {card.id})
    requires at <= |Without(Siblings(t, card.project, card.parent), card.id)|
    requires InsertBlock(a, Without(Siblings(t, card.project, card.parent), card.id), at, [card], card.parent, now).Ok?
    ensures var p := InsertBlock(a, Without(Siblings(t, card.project, card.parent), card.id), at, [card], card.parent,
                                 now).value;
      && WellKeyed(SaveAll(t, p.changed)) && Forest(SaveAll(t, p.changed))
      && Siblings(SaveAll(t, p.changed), card.project, card.parent) == p.list
  {
    hide *;
    var project, parent := card.project, card.parent;
    var dest := Without(Siblings(t, project, parent), card.id);
    var p := InsertBlock(a, dest, at, [card], parent, now).value;
    DestinationFor(t, project, parent, card);
    assert Ids([card]) == [card.id];
    DestinationSorted(t, project, parent, card);
    InsertBlockPlaces(a, dest, at, [card], parent, now);
    PlacementRegrafts(t, project, parent, dest, at, [card], now, p);
    PlacementReadBack(t, project, parent, dest, at, [card], now, p);
    OneRegrafts(t, SaveAll(t, p.changed), card.id, project, parent);
    assert {card.id} + {} == {card.id};
    RegraftKeepsForest(t, SaveAll(t, p.changed), {card.id}, {}, project, parent);
  }

  lemma OneRegrafts(t: Table, t': Table, id: Id, project: string, parent: Option<Id>)
    requires SamePlaces(t, t', [id]) && HangBelow(t', [id], project, parent) && t'.Keys == t.Keys
    requires InProject(t, project, id)
    ensures Regrafts(t, t', {id}, {}, project, parent)
  {
    assert id in [id];
  }

  // ----- each operation keeps the forest -----

  lemma CreateKeepsForest(t: Table, card: Card, key: Option<real>)
    requires WellKeyed(t) && Forest(t) && Create(t, card, key).Ok?
    ensures WellKeyed(Create(t, card, key).value) && Forest(Create(t, card, key).value)
  {
    ValidateParentExact(t, card);
    assert {card.id} + {} == {card.id};
    RegraftKeepsForest(t, Create(t, card, key).value, {card.id}, {}, card.project, card.parent);
  }

  lemma MoveKeepsForest(t: Table, id: Id, hasParent: bool, parent: Option<Id>, key: Option<real>, now: int)
    requires WellKeyed(t) && Forest(t) && Move(t, id, hasParent, parent, key, now).Ok?
    ensures var t' := Move(t, id, hasParent, parent, key, now).value; WellKeyed(t') && Forest(t')
  {
    var t' := Move(t, id, hasParent, parent, key, now).value;
    var next := if hasParent then parent else t[id].parent;
    ValidateParentExact(t, t[id].(parent := next));
    assert {id} + {} == {id};
    if t' != t { RegraftKeepsForest(t, t', {id}, {}, t[id].project, next); }
  }

  /** However long the ancestor chains are: the resolver's 1024-step check is backed by the
      full walk of `validate_card_parent`. */
  lemma MoveToKeepsForest(a: Arithmetic, t: Table, project: string, id: Id, q: Request, now: int)
    requires WellKeyed(t) && Forest(t) && MoveTo(a, t, project, id, q, now).Ok?
    ensures var t' := MoveTo(a, t, project, id, q, now).value; WellKeyed(t') && Forest(t')
  {
    var target := Resolve(t, project, id, q).value;
    if target.at.Some? {
      var card := t[id].(parent := target.parent);
      SameBlock(a, target.dest, target.at.value, t[id], target.parent, now);
      var p := InsertBlock(a, target.dest, target.at.value, [t[id]], target.parent, now).value;
      if !Unmoved(t, id, p.changed) {
        ValidateParentExact(t, card);
        PlaceOneKeepsForest(a, t, card, target.at.value, now);
      }
    }
  }

  /** The parent a block card carried before is irrelevant. */
  lemma SameBlock(a: Arithmetic, dest: seq<Card>, at: nat, c: Card, parent: Option<Id>, now: int)
    requires at <= |dest|
    ensures InsertBlock(a, dest, at, [c], parent, now) == InsertBlock(a, dest, at, [c.(parent := parent)], parent, now)
  {
    assert Spliced(dest, at, [c], parent) == Spliced(dest, at, [c.(parent := parent)], parent);
  }

  /** The children of a card cannot be on a chain that avoids the card. */
  lemma {:induction false} ChainAvoidsChildren(t: Table, project: string, d: Option<Id>, id: Id, kids: set<Id>, n: nat)
    requires Anchored(t, project, d, {id}, n) && forall x :: x in kids ==> x in t && t[x].parent == Some(id)
    ensures Anchored(t, project, d, kids + {id}, n)
    decreases n
  {
    if d.Some? { ChainAvoidsChildren(t, project, t[d.value].parent, id, kids, n - 1); }
  }

  /** Rows after a promotion that leaves the card itself trashed. */
  lemma PromotionRows(a: Arithmetic, t: Table, id: Id, row: Card, now: int, d: Option<Id>, p: Placed)
    requires WellKeyed(t) && id in t && row.id == id && row.project == t[id].project && !row.Live()
    requires ReachableParent(t, t[id]) == Ok(d) && Promoted(a, t, t[id], now) == Ok(p)
    ensures WellKeyed(WriteBack(t, row, p.changed)) && WriteBack(t, row, p.changed).Keys == t.Keys
    ensures WriteBack(t, row, p.changed)[id] == row
    ensures SamePlaces(t, WriteBack(t, row, p.changed), Ids(Siblings(t, t[id].project, Some(id))) + [id])
    ensures HangBelow(WriteBack(t, row, p.changed), Ids(Siblings(t, t[id].project, Some(id))), t[id].project, d)
    ensures Siblings(WriteBack(t, row, p.changed), t[id].project, d) == p.list
  {
    hide *;
    var card := t[id];
    var project := card.project;
    ReachableParentSound(t, card);
    var t1 := Save(t, row);
    var kids := Siblings(t, project, Some(id));
    var dest := Without(Siblings(t, project, d), id);
    var at := LowerBound(TreeOrder, dest, card.(parent := d));
    PromotedUnfolds(a, t, id, row, now, d, p);
    DestinationSorted(t, project, d, card);
    TrashedWellKeyed(t, id, row);
    PromotionBlock(t, t1, id, d);
    InsertBlockPlaces(a, dest, at, kids, d, now);
    PlacementRegrafts(t1, project, d, dest, at, kids, now, p);
    PlacementReadBack(t1, project, d, dest, at, kids, now, p);
    RowUntouched(t1, project, d, dest, at, kids, now, p, id);
    SamePlacesBut(t, id, row, SaveAll(t1, p.changed), Ids(kids));
  }

  lemma PromotedUnfolds(a: Arithmetic, t: Table, id: Id, row: Card, now: int, d: Option<Id>, p: Placed)
    requires WellKeyed(t) && id in t && row.id == id && row.project == t[id].project
    requires ReachableParent(t, t[id]) == Ok(d) && Promoted(a, t, t[id], now) == Ok(p)
    ensures t[id].id == id && t[id].parent != Some(id)
    ensures Save(t, row) == t[id := row] && WriteBack(t, row, p.changed) == SaveAll(Save(t, row), p.changed)
    ensures var dest := Without(Siblings(t, t[id].project, d), id);
      InsertBlock(a, dest, LowerBound(TreeOrder, dest, t[id].(parent := d)),
                  Siblings(t, t[id].project, Some(id)), d, now) == Ok(p)
  {
    hide Siblings, Without, InsertBlock, LowerBound, SaveAll;
  }

  lemma TrashedWellKeyed(t: Table, id: Id, row: Card)
    requires WellKeyed(t) && row.id == id
    ensures WellKeyed(t[id := row])
  {
  }

  lemma SamePlacesBut(t: Table, id: Id, row: Card, t': Table, kids: seq<Id>)
    requires SamePlaces(t[id := row], t', kids)
    ensures SamePlaces(t, t', kids + [id])
  {
  }

  /** A row that is neither placed nor a live child of the destination is not written. */
  lemma RowUntouched(t: Table, project: string, parent: Option<Id>, dest: seq<Card>, at: nat,
                     block: seq<Card>, now: int, p: Placed, id: Id)
    requires WellKeyed(t) && IsDestination(t, project, parent, block, dest) && IsBlock(t, project, block)
    requires at <= |dest| && IsPlacement(Spliced(dest, at, block, parent), at, at + |block|, now, p)
    requires id in t && id !in Ids(block) && !t[id].Live()
    ensures SaveAll(t, p.changed).Keys == t.Keys && SaveAll(t, p.changed)[id] == t[id]
  {
    hide IsPlacement, IsDestination, IsBlock, Spliced, SaveAll;
    PlacementRows(t, project, parent, dest, at, block, now, p);
    SaveAllRows(t, p.changed);
    forall c | c in p.changed
      ensures c.id != id
    {
      assert c in p.list;
    }
  }

  /** The children, seen from the table in which the card is already trashed. */
  lemma PromotionBlock(t: Table, t1: Table, id: Id, d: Option<Id>)
    requires WellKeyed(t) && WellKeyed(t1) && id in t && id in t1 && !t1[id].Live() && t1 == t[id := t1[id]]
    requires Reachable(t, t[id].project, d, {id}) && t[id].parent != Some(id)
    ensures id !in Ids(Siblings(t, t[id].project, Some(id)))
    ensures IsBlock(t1, t[id].project, Siblings(t, t[id].project, Some(id)))
    ensures IsDestination(t1, t[id].project, d, Siblings(t, t[id].project, Some(id)),
                          Without(Siblings(t, t[id].project, d), id))
  {
    hide *;
    ChainOff(t, id, d);
    KidsAreBlock(t, t1, id);
    KidsDestination(t, t1, id, d);
  }

  lemma KidsAreBlock(t: Table, t1: Table, id: Id)
    requires WellKeyed(t) && id in t && id in t1 && t1 == t[id := t1[id]] && t[id].parent != Some(id)
    ensures id !in Ids(Siblings(t, t[id].project, Some(id)))
    ensures IsBlock(t1, t[id].project, Siblings(t, t[id].project, Some(id)))
  {
    hide Siblings, Less;
    var project := t[id].project;
    var kids := Siblings(t, project, Some(id));
    SiblingsMember(t, project, Some(id));
    forall i | 0 <= i < |kids|
      ensures kids[i].id != id && ChildOf(kids[i], project, Some(id)) && t1[kids[i].id] == kids[i]
    {
      assert kids[i] in kids;
    }
    forall i, j | 0 <= i < j < |kids|
      ensures kids[i].id != kids[j].id
    {
      assert kids[i] in kids && kids[j] in kids;
      if kids[i].id == kids[j].id { SortedDistinct(TreeOrder, kids, i, j); }
    }
  }

  lemma KidsDestination(t: Table, t1: Table, id: Id, d: Option<Id>)
    requires WellKeyed(t) && id in t && id in t1 && !t1[id].Live() && t1 == t[id := t1[id]] && d != Some(id)
    ensures IsDestination(t1, t[id].project, d, Siblings(t, t[id].project, Some(id)),
                          Without(Siblings(t, t[id].project, d), id))
  {
    hide Siblings, Without, Sorted;
    var project := t[id].project;
    var kids, around := Siblings(t, project, Some(id)), Siblings(t, project, d);
    WithoutSorted(TreeOrder, around, id);
    SiblingsMember(t, project, d);
    forall c: Card
      ensures c in Without(around, id) <==> c.id in t1 && t1[c.id] == c && ChildOf(c, project, d) && c.id !in Ids(kids)
    {
      WithoutMember(around, id, c);
      if c.id in Ids(kids) { KidRow(t, project, id, c.id); }
    }
  }

  lemma ChainOff(t: Table, id: Id, d: Option<Id>)
    requires id in t && Reachable(t, t[id].project, d, {id})
    ensures d != Some(id)
  {
  }

  /** Trashing a card in promote mode keeps the forest, whatever its own row becomes. */
  lemma PromoteKeepsForest(a: Arithmetic, t: Table, id: Id, row: Card, now: int)
    requires WellKeyed(t) && Forest(t) && id in t && row.id == id && row.project == t[id].project && !row.Live()
    requires Promoted(a, t, t[id], now).Ok?
    ensures var t' := WriteBack(t, row, Promoted(a, t, t[id], now).value.changed); WellKeyed(t') && Forest(t')
  {
    assert ReachableParent(t, t[id]).Ok?;
    hide *;
    var project := t[id].project;
    var p, d := Promoted(a, t, t[id], now).value, ReachableParent(t, t[id]).value;
    var t' := WriteBack(t, row, p.changed);
    PromotionRows(a, t, id, row, now, d, p);
    ReachableParentSound(t, t[id]);
    var kids := Ids(Siblings(t, project, Some(id)));
    PromotionRegrafts(t, t', id, kids, d);
    KidsOffChain(t, id, d, set x | x in kids);
    RegraftKeepsForest(t, t', set x | x in kids, {id}, project, d);
  }

  lemma KidsOffChain(t: Table, id: Id, d: Option<Id>, kids: set<Id>)
    requires WellKeyed(t) && id in t && Reachable(t, t[id].project, d, {id})
    requires forall x :: x in kids ==> x in Ids(Siblings(t, t[id].project, Some(id)))
    ensures Reachable(t, t[id].project, d, kids + {id})
  {
    hide Siblings;
    var n: nat :| Anchored(t, t[id].project, d, {id}, n);
    forall x | x in kids
      ensures x in t && t[x].parent == Some(id)
    {
      KidRow(t, t[id].project, id, x);
    }
    ChainAvoidsChildren(t, t[id].project, d, id, kids, n);
  }

  lemma PromotionRegrafts(t: Table, t': Table, id: Id, kids: seq<Id>, d: Option<Id>)
    requires WellKeyed(t) && Forest(t) && id in t && t'.Keys == t.Keys && !t'[id].Live()
    requires kids == Ids(Siblings(t, t[id].project, Some(id)))
    requires SamePlaces(t, t', kids + [id]) && HangBelow(t', kids, t[id].project, d)
    ensures Regrafts(t, t', set x | x in kids, {id}, t[id].project, d)
  {
    hide Siblings, Forest;
    forall x | x in t && t[x].Live() && t[x].parent == Some(id)
      ensures x in kids
    {
      LiveChildIsKid(t, id, x);
    }
    forall x | x in kids
      ensures x in t && t[x].project == t[id].project
    {
      KidRow(t, t[id].project, id, x);
    }
  }

  lemma LiveChildIsKid(t: Table, id: Id, x: Id)
    requires WellKeyed(t) && Forest(t) && id in t && x in t && t[x].Live() && t[x].parent == Some(id)
    ensures x in Ids(Siblings(t, t[id].project, Some(id)))
  {
    hide Siblings;
    var m: nat :| Anchored(t, t[x].project, Some(x), {}, m);
    assert Anchored(t, t[x].project, Some(id), {}, m - 1);
    SiblingsMember(t, t[id].project, Some(id));
    IdIn(Siblings(t, t[id].project, Some(id)), t[x]);
  }

  lemma IdIn(s: seq<Card>, c: Card)
    requires c in s
    ensures c.id in Ids(s)
  {
    var i :| 0 <= i < |s| && s[i] == c;
    assert Ids(s)[i] == c.id;
  }

  lemma KidRow(t: Table, project: string, id: Id, x: Id)
    requires WellKeyed(t) && x in Ids(Siblings(t, project, Some(id)))
    ensures x in t && ChildOf(t[x], project, Some(id))
  {
    hide Siblings;
    var s := Siblings(t, project, Some(id));
    SiblingsMember(t, project, Some(id));
    var i :| 0 <= i < |s| && Ids(s)[i] == x;
    assert s[i] in s;
  }

  /** A live card outside the subtree has its whole chain outside it. */
  lemma SubtreeKeepsForest(t: Table, id: Id, now: int)
    requires WellKeyed(t) && Forest(t) && TrashSubtree(t, id, now).Ok?
    ensures var t' := TrashSubtree(t, id, now).value; WellKeyed(t') && Forest(t')
  {
    var t' := TrashSubtree(t, id, now).value;
    var gone := set x | x in t && InSubtree(t, x, id);
    forall x | x in t' && t'[x].Live()
      ensures t[x].parent.Some? ==> t[x].parent.value !in gone
    {
      if t[x].parent.Some? && t[x].parent.value in gone {
        var n: nat :| Anchored(t, t[x].project, Some(x), {}, n);
        var p := t[x].parent.value;
        assert Anchored(t, t[x].project, Some(p), {}, n - 1);
        if p == id {
          assert Ancestor(t, t[id].project, t[x].parent, 0, id);
        } else {
          var k: nat :| Ancestor(t, t[id].project, t[p].parent, k, id);
          assert Ancestor(t, t[id].project, t[x].parent, k + 1, id);
        }
      }
    }
    assert Anchored(t, t[id].project, None, {} + gone, 0);
    RegraftKeepsForest(t, t', {}, gone, t[id].project, None);
  }

  lemma RestoredKeepsForest(a: Arithmetic, t: Table, card: Card, now: int)
    requires WellKeyed(t) && Forest(t) && card.id in t && t[card.id].project == card.project && card.Live()
    requires RestoredPlacement(a, t, card, now).Ok?
    ensures var t' := RestoredPlacement(a, t, card, now).value; WellKeyed(t') && Forest(t')
  {
    ReachableParentSound(t, card);
    var d := ReachableParent(t, card).value;
    var placed := card.(parent := d);
    var dest := Without(Siblings(t, card.project, d), card.id);
    if KeyTaken(dest, card.key) {
      PlaceOneKeepsForest(a, t, placed, LowerBound(TreeOrder, dest, placed), now);
    } else {
      assert {card.id} + {} == {card.id};
      RegraftKeepsForest(t, Save(t, placed), {card.id}, {}, card.project, d);
    }
  }

  lemma HardDeleteKeepsForest(t: Table, id: Id)
    requires WellKeyed(t) && Forest(t) && HardDelete(t, id).Ok?
    ensures var t' := HardDelete(t, id).value; WellKeyed(t') && Forest(t')
  {
    assert Anchored(t, t[id].project, None, {} + {}, 0);
    RegraftKeepsForest(t, HardDelete(t, id).value, {}, {}, t[id].project, None);
  }

  // ----- runs -----

  datatype Op =
    | OpCreate(card: Card, explicitKey: Option<real>)
    | OpMove(id: Id, hasParent: bool, parent: Option<Id>, key: Option<real>, now: int)
    | OpMoveTo(project: string, id: Id, q: Request, now: int)
    | OpTrash(id: Id, now: int)
    | OpTrashSubtree(id: Id, now: int)
    | OpRestore(id: Id, now: int)
    | OpRestoreVersion(id: Id, h: Historical, now: int)
    | OpHardDelete(id: Id)

  ghost function Apply(a: Arithmetic, t: Table, op: Op): (r: Result<Table>)
    requires WellKeyed(t)
  {
    match op
    case OpCreate(card, key) => Create(t, card, key)
    case OpMove(id, hasParent, parent, key, now) => Move(t, id, hasParent, parent, key, now)
    case OpMoveTo(project, id, q, now) => MoveTo(a, t, project, id, q, now)
    case OpTrash(id, now) => TrashPromote(a, t, id, now)
    case OpTrashSubtree(id, now) => TrashSubtree(t, id, now)
    case OpRestore(id, now) => Restore(a, t, id, now)
    case OpRestoreVersion(id, h, now) => RestoreVersion(a, t, id, h, now)
    case OpHardDelete(id) => HardDelete(t, id)
  }

  /** A rejected operation changes nothing. */
  ghost function Step(a: Arithmetic, t: Table, op: Op): (t': Table)
    requires WellKeyed(t)
  {
    var r := Apply(a, t, op);
    if r.Ok? then r.value else t
  }

  lemma StepKeepsForest(a: Arithmetic, t: Table, op: Op)
    requires WellKeyed(t) && Forest(t)
    ensures WellKeyed(Step(a, t, op)) && Forest(Step(a, t, op))
  {
    if Apply(a, t, op).Ok? {
      match op
      case OpCreate(card, key) => CreateKeepsForest(t, card, key);
      case OpMove(id, hasParent, parent, key, now) => MoveKeepsForest(t, id, hasParent, parent, key, now);
      case OpMoveTo(project, id, q, now) => MoveToKeepsForest(a, t, project, id, q, now);
      case OpTrash(id, now) => PromoteKeepsForest(a, t, id, Trashed(t[id], now), now);
      case OpTrashSubtree(id, now) => SubtreeKeepsForest(t, id, now);
      case OpRestore(id, now) => RestoredKeepsForest(a, t, t[id].(deletedAt := None, updatedAt := now), now);
      case OpRestoreVersion(id, h, now) =>
        var card := Card(id, t[id].project, h.title, h.parent, h.key, now, if h.inTrash then Some(now) else None);
        if h.inTrash { PromoteKeepsForest(a, t, id, card, now); } else { RestoredKeepsForest(a, t, card, now); }
      case OpHardDelete(id) => HardDeleteKeepsForest(t, id);
    }
  }

  /** How files and Git behave during an operation: well, failing before the row is written, or
      failing after it, as a Git commit can. */
  datatype Outside = Fine | FailsEarly | FailsLate

  /** Create, move and permanent deletion write their row without a journal; all other
      operations are journalled, and a failure rolls them back. */
  predicate Unjournalled(op: Op)
  {
    op.OpCreate? || op.OpMove? || op.OpHardDelete?
  }

  /** Whether the row of an accepted operation stays written. */
  predicate Lasts(op: Op, outside: Outside)
  {
    outside.Fine? || (outside.FailsLate? && Unjournalled(op))
  }

  /** The table after an operation that may fail outside the table. An operation that is rejected
      changes nothing; an unjournalled one that fails late reports an error and is in effect. */
  ghost function Performed(a: Arithmetic, t: Table, op: Op, outside: Outside): (t': Table)
    requires WellKeyed(t)
    ensures Apply(a, t, op).Err? ==> t' == t
  {
    if Lasts(op, outside) then Step(a, t, op) else t
  }

  lemma {:induction false} SaveAllKeyed(t: Table, cs: seq<Card>)
    requires WellKeyed(t)
    ensures WellKeyed(SaveAll(t, cs)) && SaveAll(t, cs).Keys == t.Keys
    decreases |cs|
  {
    if cs != [] { SaveAllKeyed(Save(t, cs[0]), cs[1..]); }
  }

  /** A journalled operation adds and removes no rows. */
  lemma JournalledKeepsRows(a: Arithmetic, t: Table, op: Op)
    requires WellKeyed(t) && !Unjournalled(op)
    ensures WellKeyed(Step(a, t, op)) && Step(a, t, op).Keys == t.Keys
  {
    hide *;
    StepUnfolds(a, t, op);
    if Apply(a, t, op).Ok? {
      match op
      case OpMoveTo(project, id, q, now) => MoveToKeyed(a, t, project, id, q, now);
      case OpTrash(id, now) => TrashKeyed(a, t, id, now);
      case OpTrashSubtree(id, now) => SubtreeKeyed(t, id, now);
      case OpRestore(id, now) => RestoreKeyed(a, t, id, now);
      case OpRestoreVersion(id, h, now) => VersionKeyed(a, t, id, h, now);
      case _ => UnjournalledIs(op);
    }
  }

  lemma UnjournalledIs(op: Op)
    ensures Unjournalled(op) <==> op.OpCreate? || op.OpMove? || op.OpHardDelete?
  {
  }

  lemma StepUnfolds(a: Arithmetic, t: Table, op: Op)
    requires WellKeyed(t)
    ensures Step(a, t, op) == if Apply(a, t, op).Ok? then Apply(a, t, op).value else t
    ensures match op
      case OpMoveTo(project, id, q, now) => Apply(a, t, op) == MoveTo(a, t, project, id, q, now)
      case OpTrash(id, now) => Apply(a, t, op) == TrashPromote(a, t, id, now)
      case OpTrashSubtree(id, now) => Apply(a, t, op) == TrashSubtree(t, id, now)
      case OpRestore(id, now) => Apply(a, t, op) == Restore(a, t, id, now)
      case OpRestoreVersion(id, h, now) => Apply(a, t, op) == RestoreVersion(a, t, id, h, now)
      case _ => true
  {
    hide Create, Move, MoveTo, TrashPromote, TrashSubtree, Restore, RestoreVersion, HardDelete;
  }

  lemma MoveToKeyed(a: Arithmetic, t: Table, project: string, id: Id, q: Request, now: int)
    requires WellKeyed(t) && MoveTo(a, t, project, id, q, now).Ok?
    ensures var t' := MoveTo(a, t, project, id, q, now).value; WellKeyed(t') && t'.Keys == t.Keys
  {
    hide InsertBlock, Resolve, SaveAll, ValidateParent, Unmoved, WellKeyed;
    var target := Resolve(t, project, id, q);
    if target.value.at.Some? {
      var placed := InsertBlock(a, target.value.dest, target.value.at.value, [t[id]], target.value.parent, now);
      if placed.Ok? { SaveAllKeyed(t, placed.value.changed); }
    }
  }

  lemma WriteBackKeyed(t: Table, card: Card, placements: seq<Card>)
    requires WellKeyed(t)
    ensures WellKeyed(WriteBack(t, card, placements)) && WriteBack(t, card, placements).Keys == t.Keys
  {
    hide SaveAll;
    assert WellKeyed(Save(t, card)) && Save(t, card).Keys == t.Keys;
    SaveAllKeyed(Save(t, card), placements);
  }

  lemma TrashKeyed(a: Arithmetic, t: Table, id: Id, now: int)
    requires WellKeyed(t) && TrashPromote(a, t, id, now).Ok?
    ensures var t' := TrashPromote(a, t, id, now).value; WellKeyed(t') && t'.Keys == t.Keys
  {
    hide Promoted, WriteBack, WellKeyed;
    WriteBackKeyed(t, t[id].(deletedAt := Some(now), updatedAt := now), Promoted(a, t, t[id], now).value.changed);
  }

  lemma SubtreeKeyed(t: Table, id: Id, now: int)
    requires WellKeyed(t) && TrashSubtree(t, id, now).Ok?
    ensures var t' := TrashSubtree(t, id, now).value; WellKeyed(t') && t'.Keys == t.Keys
  {
    hide InSubtree;
  }

  lemma RestoredKeyed(a: Arithmetic, t: Table, card: Card, now: int)
    requires WellKeyed(t) && RestoredPlacement(a, t, card, now).Ok? && card.id in t
    ensures var t' := RestoredPlacement(a, t, card, now).value; WellKeyed(t') && t'.Keys == t.Keys
  {
    hide InsertBlock, SaveAll, ReachableParent, Siblings, KeyTaken, LowerBound, Without;
    var d := ReachableParent(t, card);
    var c := card.(parent := d.value);
    var dest := Without(Siblings(t, c.project, d.value), c.id);
    if KeyTaken(dest, c.key) {
      SaveAllKeyed(t, InsertBlock(a, dest, LowerBound(TreeOrder, dest, c), [c], d.value, now).value.changed);
    }
  }

  lemma RestoreKeyed(a: Arithmetic, t: Table, id: Id, now: int)
    requires WellKeyed(t) && Restore(a, t, id, now).Ok?
    ensures var t' := Restore(a, t, id, now).value; WellKeyed(t') && t'.Keys == t.Keys
  {
    assert t[id].id == id;
    hide RestoredPlacement, WellKeyed;
    RestoredKeyed(a, t, t[id].(deletedAt := None, updatedAt := now), now);
  }

  lemma VersionKeyed(a: Arithmetic, t: Table, id: Id, h: Historical, now: int)
    requires WellKeyed(t) && RestoreVersion(a, t, id, h, now).Ok?
    ensures var t' := RestoreVersion(a, t, id, h, now).value; WellKeyed(t') && t'.Keys == t.Keys
  {
    hide RestoredPlacement, WellKeyed, Promoted, WriteBack;
    var card := Card(id, t[id].project, h.title, h.parent, h.key, now, if h.inTrash then Some(now) else None);
    if h.inTrash {
      WriteBackKeyed(t, card, Promoted(a, t, t[id], now).value.changed);
    } else {
      RestoredKeyed(a, t, card, now);
    }
  }

  /** After a reported error the table is as it was exactly when the operation was rejected, failed
      before its row was written, is journalled, or would have changed nothing. */
  lemma ErrorLeavesTable(a: Arithmetic, t: Table, op: Op, outside: Outside)
    requires WellKeyed(t) && (Apply(a, t, op).Err? || !outside.Fine?)
    ensures Performed(a, t, op, outside) == t <==>
      Apply(a, t, op).Err? || outside.FailsEarly? || !Unjournalled(op) || Step(a, t, op) == t
  {
    hide Apply;
  }

  /** Every table along a run of operations. */
  ghost predicate IsRun(a: Arithmetic, tables: seq<Table>, ops: seq<Op>, outsides: seq<Outside>)
  {
    && |tables| == |ops| + 1 && |outsides| == |ops|
    && forall i :: 0 <= i < |ops| ==>
         WellKeyed(tables[i]) && tables[i + 1] == Performed(a, tables[i], ops[i], outsides[i])
  }

  /** The whole-run forest invariant: from a forest, every sequence of operations, accepted,
      rejected or failing half-way, passes through forests only. */
  lemma {:induction false} RunKeepsForest(a: Arithmetic, tables: seq<Table>, ops: seq<Op>, outsides: seq<Outside>)
    requires IsRun(a, tables, ops, outsides) && WellKeyed(tables[0]) && Forest(tables[0])
    ensures forall i :: 0 <= i < |tables| ==> WellKeyed(tables[i]) && Forest(tables[i])
    decreases |ops|
  {
    hide Step, Forest, Apply, WellKeyed;
    if ops != [] {
      StepKeepsForest(a, tables[0], ops[0]);
      assert tables[1] == Performed(a, tables[0], ops[0], outsides[0]);
      assert IsRun(a, tables[1..], ops[1..], outsides[1..]) by { LaterRun(a, tables, ops, outsides); }
      RunKeepsForest(a, tables[1..], ops[1..], outsides[1..]);
      forall i | 0 <= i < |tables|
        ensures WellKeyed(tables[i]) && Forest(tables[i])
      {
        if i > 0 { assert tables[i] == tables[1..][i - 1]; }
      }
    }
  }

  lemma LaterRun(a: Arithmetic, tables: seq<Table>, ops: seq<Op>, outsides: seq<Outside>)
    requires IsRun(a, tables, ops, outsides) && ops != []
    ensures IsRun(a, tables[1..], ops[1..], outsides[1..])
  {
    hide Performed, WellKeyed;
    var later, after, others := tables[1..], ops[1..], outsides[1..];
    forall i | 0 <= i < |after|
      ensures WellKeyed(later[i]) && later[i + 1] == Performed(a, later[i], after[i], others[i])
    {
      assert later[i] == tables[i + 1] && later[i + 1] == tables[i + 2] && after[i] == ops[i + 1];
    }
  }

  // ----- order -----

  /** Promotion order: a reachable card is replaced among its siblings by its live children,
      in their order; trashed children and deeper descendants keep their parents. */
  lemma PromotionOrder(a: Arithmetic, t: Table, id: Id, now: int)
    requires WellKeyed(t) && id in t && Reachable(t, t[id].project, t[id].parent, {id})
    requires TrashPromote(a, t, id, now).Ok?
    ensures var t' := TrashPromote(a, t, id, now).value;
      var siblings := Siblings(t, t[id].project, t[id].parent);
      var children := Siblings(t, t[id].project, Some(id));
      var i := IndexOf(siblings, id);
      && WellKeyed(t') && i < |siblings|
      && Ids(Siblings(t', t[id].project, t[id].parent)) == Ids(siblings[..i]) + Ids(children) + Ids(siblings[i + 1..])
      && SamePlaces(t, t', Ids(children) + [id])
  {
    hide *;
    var card := t[id];
    var project, parent := card.project, card.parent;
    var siblings, children := Siblings(t, project, parent), Siblings(t, project, Some(id));
    var i := IndexOf(siblings, id);
    var dest := Without(siblings, id);
    TrashUnfolds(a, t, id, now);
    var row, p := Trashed(card, now), Promoted(a, t, card, now).value;
    PromotionRows(a, t, id, row, now, parent, p);
    PromotedUnfolds(a, t, id, row, now, parent, p);
    assert card.(parent := parent) == card;
    CutPlace(t, id);
    WithoutSorted(TreeOrder, siblings, id);
    InsertBlockPlaces(a, dest, i, children, parent, now);
    assert dest[..i] == siblings[..i] && dest[i..] == siblings[i + 1..];
  }

  lemma TrashUnfolds(a: Arithmetic, t: Table, id: Id, now: int)
    requires WellKeyed(t) && id in t && Reachable(t, t[id].project, t[id].parent, {id})
    requires TrashPromote(a, t, id, now).Ok?
    ensures t[id].Live() && ReachableParent(t, t[id]) == Ok(t[id].parent) && Promoted(a, t, t[id], now).Ok?
    ensures TrashPromote(a, t, id, now).value == WriteBack(t, Trashed(t[id], now),
                                                           Promoted(a, t, t[id], now).value.changed)
    ensures var row := Trashed(t[id], now); row.id == id && row.project == t[id].project && !row.Live()
  {
    ValidateParentExact(t, t[id]);
    hide Promoted, WriteBack, WalkUp, Anchored;
  }

  /** A live card is among its siblings; cutting it out leaves its place as the lower bound. */
  lemma CutPlace(t: Table, id: Id)
    requires WellKeyed(t) && id in t && t[id].Live()
    ensures var siblings := Siblings(t, t[id].project, t[id].parent);
      var i := IndexOf(siblings, id);
      && i < |siblings| && siblings[i] == t[id]
      && Without(siblings, id) == siblings[..i] + siblings[i + 1..]
      && LowerBound(TreeOrder, Without(siblings, id), t[id]) == i
  {
    hide Siblings, Without, LowerBound;
    var siblings := Siblings(t, t[id].project, t[id].parent);
    SiblingsMember(t, t[id].project, t[id].parent);
    SiblingsCut(t, t[id].project, t[id].parent, id);
    assert t[id] in siblings;
    var i := IndexOf(siblings, id);
    assert siblings[i] in siblings;
    LowerBoundAtCut(siblings, i);
  }

  /** The place of a card among the others is the place it was taken from. */
  lemma LowerBoundAtCut(s: seq<Card>, i: nat)
    requires Sorted(TreeOrder, s) && i < |s|
    ensures LowerBound(TreeOrder, s[..i] + s[i + 1..], s[i]) == i
  {
    var dest := s[..i] + s[i + 1..];
    var at := LowerBound(TreeOrder, dest, s[i]);
    assert forall k :: 0 <= k < i ==> dest[k] == s[k] && Less(TreeOrder, s[k], s[i]);
    if i < |dest| {
      assert dest[i] == s[i + 1];
      LessAsymmetric(TreeOrder, s[i], s[i + 1]);
    }
  }

  /** What an accepted `move_to` with a place does: read back, the siblings are the chosen
      list with the card at the chosen index. */
  lemma MoveToReadBack(a: Arithmetic, t: Table, project: string, id: Id, q: Request, now: int,
                       target: Target, at: nat, t': Table)
    requires WellKeyed(t) && Forest(t) && MoveTo(a, t, project, id, q, now) == Ok(t')
    requires Resolve(t, project, id, q) == Ok(target) && target.at == Some(at)
    ensures WellKeyed(t') && Forest(t') && at <= |target.dest|
    ensures Ids(Siblings(t', project, target.parent)) == Ids(target.dest[..at]) + [id] + Ids(target.dest[at..])
    ensures SamePlaces(t, t', [id]) && HangBelow(t', [id], project, target.parent)
  {
    MoveToKeepsForest(a, t, project, id, q, now);
    var p := InsertBlock(a, target.dest, at, [t[id]], target.parent, now).value;
    assert target.dest == Without(Siblings(t, project, target.parent), id);
    assert t' == if Unmoved(t, id, p.changed) then t else SaveAll(t, p.changed);
    hide MoveTo, Resolve, Forest, Siblings, Without, InsertBlock, SaveAll, Unmoved, SamePlaces, HangBelow;
    PlacedReadBack(a, t, project, target.parent, target.dest, at, id, now, p);
  }

  lemma PlacedReadBack(a: Arithmetic, t: Table, project: string, parent: Option<Id>, dest: seq<Card>, at: nat,
                       id: Id, now: int, p: Placed)
    requires WellKeyed(t) && LiveIn(t, project, id) && dest == Without(Siblings(t, project, parent), id)
    requires at <= |dest| && InsertBlock(a, dest, at, [t[id]], parent, now) == Ok(p)
    ensures Ids(p.list) == Ids(dest[..at]) + [id] + Ids(dest[at..])
    ensures Unmoved(t, id, p.changed) ==> ReadsBack(t, t, project, parent, id, p.list)
    ensures ReadsBack(t, SaveAll(t, p.changed), project, parent, id, p.list)
  {
    hide *;
    OneBlock(t, project, id, parent);
    var card := t[id].(parent := parent);
    OneId(card);
    DestinationSorted(t, project, parent, card);
    SameBlock(a, dest, at, t[id], parent, now);
    DestinationFor(t, project, parent, card);
    InsertBlockPlaces(a, dest, at, [card], parent, now);
    PlacementRegrafts(t, project, parent, dest, at, [card], now, p);
    PlacementReadBack(t, project, parent, dest, at, [card], now, p);
    ReadsBackFrom(t, SaveAll(t, p.changed), project, parent, id, p.list);
    if Unmoved(t, id, p.changed) {
      UnmovedReadBack(t, project, parent, dest, at, card, now, p);
    }
  }

  /** Listing the parent's children again gives `list`, and only `id` has changed its place. */
  ghost predicate ReadsBack(t: Table, t': Table, project: string, parent: Option<Id>, id: Id, list: seq<Card>)
  {
    && WellKeyed(t') && Ids(Siblings(t', project, parent)) == Ids(list)
    && SamePlaces(t, t', [id]) && HangBelow(t', [id], project, parent)
  }

  lemma ReadsBackFrom(t: Table, t': Table, project: string, parent: Option<Id>, id: Id, list: seq<Card>)
    requires WellKeyed(t') && Siblings(t', project, parent) == list
    requires SamePlaces(t, t', [id]) && HangBelow(t', [id], project, parent)
    ensures ReadsBack(t, t', project, parent, id, list)
  {
  }

  lemma OneBlock(t: Table, project: string, id: Id, parent: Option<Id>)
    requires WellKeyed(t) && LiveIn(t, project, id)
    ensures id in t && t[id].id == id && t[id].project == project && IsBlock(t, project, [t[id].(parent := parent)])
  {
  }

  lemma OneId(c: Card)
    ensures Ids([c]) == [c.id]
  {
  }

  /** When nothing is written, the card already stands where it was asked to go. */
  lemma UnmovedReadBack(t: Table, project: string, parent: Option<Id>, dest: seq<Card>, at: nat, card: Card,
                        now: int, p: Placed)
    requires WellKeyed(t) && IsDestination(t, project, parent, [card], dest) && at <= |dest|
    requires LiveIn(t, project, card.id) && card == t[card.id].(parent := parent)
    requires IsPlacement(Spliced(dest, at, [card], parent), at, at + 1, now, p)
    requires Sorted(TreeOrder, p.list) && Separated(p.list, at, at + 1)
    requires Unmoved(t, card.id, p.changed)
    ensures ReadsBack(t, t, project, parent, card.id, p.list)
  {
    hide *;
    var list := Spliced(dest, at, [card], parent);
    UnmovedList(t, project, parent, dest, at, card, now, p);
    OneId(card);
    SplicedMembers(t, project, parent, dest, at, card);
    SiblingsAre(t, project, parent, list);
    UnmovedPlaces(t, project, parent, card.id);
    assert Ids(list) == Ids(p.list);
    ReadsBackFrom(t, t, project, parent, card.id, list);
    SameIdsReadBack(t, project, parent, card.id, list, p.list);
  }

  lemma UnmovedPlaces(t: Table, project: string, parent: Option<Id>, id: Id)
    requires LiveIn(t, project, id) && t[id].parent == parent
    ensures SamePlaces(t, t, [id]) && HangBelow(t, [id], project, parent)
  {
  }

  lemma SameIdsReadBack(t: Table, project: string, parent: Option<Id>, id: Id, list: seq<Card>, other: seq<Card>)
    requires ReadsBack(t, t, project, parent, id, list) && Ids(list) == Ids(other)
    ensures ReadsBack(t, t, project, parent, id, other)
  {
    hide Siblings, SamePlaces, HangBelow;
  }

  lemma SplicedMembers(t: Table, project: string, parent: Option<Id>, dest: seq<Card>, at: nat, card: Card)
    requires WellKeyed(t) && IsDestination(t, project, parent, [card], dest) && at <= |dest|
    requires LiveIn(t, project, card.id) && card == t[card.id] && card.parent == parent
    ensures forall c :: c in Spliced(dest, at, [card], parent) <==>
        c.id in t && t[c.id] == c && ChildOf(c, project, parent)
  {
    OneId(card);
    var list := Spliced(dest, at, [card], parent);
    assert dest == dest[..at] + dest[at..];
    assert Reparent([card], parent) == [card];
    assert forall c :: c in list <==> c in dest || c == card;
  }

  /** Only the stamp of the card itself differs between the requested and the stored list. */
  lemma UnmovedList(t: Table, project: string, parent: Option<Id>, dest: seq<Card>, at: nat, card: Card,
                    now: int, p: Placed)
    requires WellKeyed(t) && IsDestination(t, project, parent, [card], dest) && at <= |dest|
    requires LiveIn(t, project, card.id) && card == t[card.id].(parent := parent)
    requires IsPlacement(Spliced(dest, at, [card], parent), at, at + 1, now, p)
    requires Sorted(TreeOrder, p.list) && Separated(p.list, at, at + 1)
    requires Unmoved(t, card.id, p.changed)
    ensures card == t[card.id] && card.parent == parent && |p.list| == |Spliced(dest, at, [card], parent)|
    ensures Sorted(TreeOrder, Spliced(dest, at, [card], parent))
    ensures forall i :: 0 <= i < |p.list| ==> p.list[i].id == Spliced(dest, at, [card], parent)[i].id
  {
    var list := Spliced(dest, at, [card], parent);
    OneId(card);
    assert list[at] == card && SameBut(list[at], p.list[at], now, true) && p.list[at] in p.changed;
    hide Spliced, IsDestination, Touched;
    forall i | 0 <= i < |list| && i != at
      ensures p.list[i] == list[i]
    {
      assert SameBut(list[i], p.list[i], now, false);
      SplicedAt(t, project, parent, dest, at, [card], i);
      assert p.list[i].id != card.id;
    }
    hide IsPlacement, WellKeyed, Unmoved;
    forall i, j | 0 <= i < j < |list|
      ensures TreeLess(list[i], list[j])
    {
      assert Less(TreeOrder, p.list[i], p.list[j]);
    }
  }
}

/** Sibling order across operations: moves that undo each other, and where a restored card
    comes back. */
module MoveOrder {
  import opened Common
  import opened Cards
  import opened Ancestry
  import opened Placement
  import opened Intents
  import opened Lifecycle

  function Sideways(intent: Intent): Request
  {
    Request(intent, None, false, None)
  }

  /** Left and Right, spelled out on the card's own sibling list. */
  lemma SidewaysTarget(t: Table, project: string, id: Id, intent: Intent, target: Target)
    requires WellKeyed(t) && (intent.Left? || intent.Right?)
    requires Resolve(t, project, id, Sideways(intent)) == Ok(target)
    ensures LiveIn(t, project, id)
    ensures var all := Siblings(t, project, t[id].parent);
      var i := IndexOf(all, id);
      && (i < |all| ==> target.parent == t[id].parent && target.dest == all[..i] + all[i + 1..])
      && target.at == if i == |all| then None
                      else if intent.Left? then (if i > 0 then Some(i - 1) else None)
                      else if i + 1 < |all| then Some(i + 1) else None
  {
    hide Siblings, Without, Resolve, GoodTarget, WellKeyed, IndexOf, ChildOf;
    SidewaysWithin(t, project, id, intent, target);
    SiblingsCut(t, project, t[id].parent, id);
  }

  lemma SidewaysWithin(t: Table, project: string, id: Id, intent: Intent, target: Target)
    requires WellKeyed(t) && (intent.Left? || intent.Right?)
    requires Resolve(t, project, id, Sideways(intent)) == Ok(target)
    ensures LiveIn(t, project, id) && ResolveWithin(t, project, id, Sideways(intent)) == Ok(target)
  {
    hide ResolveWithin, Siblings, Without, IsDescendantOf, ResolveInto, ResolveBeside, ResolveUp, GoodTarget, WellKeyed;
  }

  /** The index of an id is determined by the sequence of ids. */
  lemma IndexFromIds(s: seq<Card>, id: Id, before: seq<Id>, after: seq<Id>)
    requires Ids(s) == before + [id] + after && id !in before
    ensures IndexOf(s, id) == |before|
  {
    assert Ids(s)[|before|] == id;
    assert forall k :: 0 <= k < |before| ==> s[k].id == before[k];
    assert s[|before|] in s;
  }

  lemma CutIds(s: seq<Card>, i: nat)
    requires i < |s|
    ensures Ids(s[..i] + s[i + 1..]) == Ids(s)[..i] + Ids(s)[i + 1..]
  {
  }

  /** Moving one step left and then one step right gives back the sibling order. */
  lemma LeftThenRight(a: Arithmetic, t: Table, project: string, id: Id, now: int, later: int,
                      left: Target, t1: Table, right: Target, t2: Table)
    requires WellKeyed(t) && Forest(t)
    requires MoveTo(a, t, project, id, Sideways(Left), now) == Ok(t1)
    requires Resolve(t, project, id, Sideways(Left)) == Ok(left) && left.at.Some?
    requires WellKeyed(t1) && MoveTo(a, t1, project, id, Sideways(Right), later) == Ok(t2)
    requires Resolve(t1, project, id, Sideways(Right)) == Ok(right)
    ensures WellKeyed(t2) && right.at.Some? && id in t
    ensures Ids(Siblings(t2, project, t[id].parent)) == Ids(Siblings(t, project, t[id].parent))
  {
    hide *;
    SidewaysTarget(t, project, id, Left, left);
    LiveInRow(t, project, id);
    var parent := t[id].parent;
    var all := Siblings(t, project, parent);
    var i := IndexOf(all, id);
    MoveToReadBack(a, t, project, id, Sideways(Left), now, left, i - 1, t1);
    LeftIds(all, i);
    HangBelowRow(t1, id, project, parent);
    var all1 := Siblings(t1, project, parent);
    LeftIndex(all, i, all1);
    SidewaysTarget(t1, project, id, Right, right);
    MoveToReadBack(a, t1, project, id, Sideways(Right), later, right, i, t2);
    RightIds(all, i, all1);
  }

  /** The ids once the card at `i` is put back one place earlier. */
  function StepLeft(ids: seq<Id>, i: nat): seq<Id>
    requires 0 < i < |ids|
  {
    ids[..i - 1] + [ids[i]] + ([ids[i - 1]] + ids[i + 1..])
  }

  lemma LeftIds(all: seq<Card>, i: nat)
    requires 0 < i < |all|
    ensures var dest := all[..i] + all[i + 1..];
      Ids(dest[..i - 1]) + [all[i].id] + Ids(dest[i - 1..]) == StepLeft(Ids(all), i)
  {
    var dest := all[..i] + all[i + 1..];
    assert dest[..i - 1] == all[..i - 1] && dest[i - 1..] == [all[i - 1]] + all[i + 1..];
    assert Ids(all[..i - 1]) == Ids(all)[..i - 1];
    assert Ids(dest[i - 1..]) == [Ids(all)[i - 1]] + Ids(all)[i + 1..];
  }

  lemma LeftIndex(all: seq<Card>, i: nat, all1: seq<Card>)
    requires 0 < i < |all| && IndexOf(all, all[i].id) == i && Ids(all1) == StepLeft(Ids(all), i)
    ensures |all1| == |all| && IndexOf(all1, all[i].id) == i - 1
  {
    IndexFromIds(all1, all[i].id, Ids(all)[..i - 1], [Ids(all)[i - 1]] + Ids(all)[i + 1..]);
  }

  lemma RightIds(all: seq<Card>, i: nat, all1: seq<Card>)
    requires 0 < i < |all| && Ids(all1) == StepLeft(Ids(all), i)
    ensures |all1| == |all|
    ensures var dest := all1[..i - 1] + all1[i..];
      Ids(dest[..i]) + [all[i].id] + Ids(dest[i..]) == Ids(all)
  {
    hide Ids, StepLeft;
    assert |all1| == |Ids(all1)| && |all| == |Ids(all)|;
    StepBack(Ids(all), i);
    var dest := all1[..i - 1] + all1[i..];
    CutIds(all1, i - 1);
    PartIds(dest, i);
    assert Ids(all)[i] == all[i].id;
  }

  lemma PartIds(s: seq<Card>, i: nat)
    requires i <= |s|
    ensures Ids(s[..i]) == Ids(s)[..i] && Ids(s[i..]) == Ids(s)[i..]
  {
  }

  /** One step left and one step right. */
  lemma StepBack(ids: seq<Id>, i: nat)
    requires 0 < i < |ids|
    ensures var moved := StepLeft(ids, i);
      |moved| == |ids| && var rest := moved[..i - 1] + moved[i..]; rest[..i] + [ids[i]] + rest[i..] == ids
  {
    var moved := StepLeft(ids, i);
    assert moved[..i - 1] == ids[..i - 1] && moved[i..] == [ids[i - 1]] + ids[i + 1..];
    assert moved[..i - 1] + moved[i..] == ids[..i] + ids[i + 1..];
  }

  lemma LiveInRow(t: Table, project: string, id: Id)
    requires LiveIn(t, project, id)
    ensures id in t && t[id].project == project
  {
  }

  lemma HangBelowRow(t: Table, id: Id, project: string, parent: Option<Id>)
    requires HangBelow(t, [id], project, parent)
    ensures id in t && t[id].parent == parent
  {
    assert id in [id];
  }

  /** A restored card comes back among the children of its nearest reachable ancestor, in the
      place its own key and stamp give it, whether or not that key was taken. */
  lemma RestoreOrder(a: Arithmetic, t: Table, card: Card, now: int, d: Option<Id>, t': Table)
    requires WellKeyed(t) && card.id in t && t[card.id].project == card.project && card.Live()
    requires ReachableParent(t, card) == Ok(d) && RestoredPlacement(a, t, card, now) == Ok(t')
    ensures WellKeyed(t')
    ensures var dest := Without(Siblings(t, card.project, d), card.id);
      var at := LowerBound(TreeOrder, dest, card.(parent := d));
      Ids(Siblings(t', card.project, d)) == Ids(dest[..at]) + [card.id] + Ids(dest[at..])
  {
    hide *;
    var placed := card.(parent := d);
    var dest := Without(Siblings(t, card.project, d), card.id);
    var at := LowerBound(TreeOrder, dest, placed);
    RestoredUnfolds(a, t, card, now, d, t');
    DestinationFor(t, card.project, d, placed);
    DestinationSorted(t, card.project, d, placed);
    OneId(placed);
    if KeyTaken(dest, card.key) {
      RestoredBlock(t, placed);
      InsertBlockPlaces(a, dest, at, [placed], d, now);
      PlacementReadBack(t, card.project, d, dest, at, [placed], now,
                        InsertBlock(a, dest, at, [placed], d, now).value);
    } else {
      FreeKeyReadBack(t, placed, dest, t');
      SplicedIds(dest, at, [placed], d);
      OneSplice(dest, at, placed);
    }
  }

  lemma OneSplice(dest: seq<Card>, at: nat, c: Card)
    requires at <= |dest|
    ensures Spliced(dest, at, [c], c.parent) == InsertAt(dest, at, c)
  {
    assert Reparent([c], c.parent) == [c];
  }

  lemma RestoredBlock(t: Table, c: Card)
    requires WellKeyed(t) && c.id in t && t[c.id].project == c.project && c.deletedAt.None?
    ensures IsBlock(t, c.project, [c])
  {
  }

  lemma RestoredUnfolds(a: Arithmetic, t: Table, card: Card, now: int, d: Option<Id>, t': Table)
    requires WellKeyed(t) && card.Live()
    requires ReachableParent(t, card) == Ok(d) && RestoredPlacement(a, t, card, now) == Ok(t')
    ensures card.deletedAt.None?
    ensures var placed := card.(parent := d);
      var dest := Without(Siblings(t, card.project, d), card.id);
      var at := LowerBound(TreeOrder, dest, placed);
      if KeyTaken(dest, card.key)
      then InsertBlock(a, dest, at, [placed], d, now).Ok? &&
           t' == SaveAll(t, InsertBlock(a, dest, at, [placed], d, now).value.changed)
      else t' == Save(t, placed)
  {
    hide Siblings, Without, InsertBlock, LowerBound, SaveAll, Save, KeyTaken, ReachableParent, WalkUp;
  }

  lemma FreeKeyReadBack(t: Table, card: Card, dest: seq<Card>, t': Table)
    requires WellKeyed(t) && card.id in t && t[card.id].project == card.project && card.deletedAt.None?
    requires IsDestination(t, card.project, card.parent, [card], dest) && t' == Save(t, card)
    ensures WellKeyed(t')
    ensures Siblings(t', card.project, card.parent) == InsertAt(dest, LowerBound(TreeOrder, dest, card), card)
  {
    hide Less, LowerBound, Siblings;
    var at := LowerBound(TreeOrder, dest, card);
    OneId(card);
    assert forall x :: x in dest ==> x.id !in Ids([card]);
    SortedInsert(TreeOrder, dest, card);
    assert dest == dest[..at] + dest[at..];
    assert forall x :: x in InsertAt(dest, at, card) <==> x == card || x in dest;
    assert t' == t[card.id := card];
    SiblingsAre(t', card.project, card.parent, InsertAt(dest, at, card));
  }
}

/** What each lifecycle operation does to the rows and to the sibling order, and when it is
    accepted: stated on the table before and after, apart from the functions that compute it. */
module Effects {
  import opened Common
  import opened Cards
  import opened Ancestry
  import opened Placement
  import opened Intents
  import opened Lifecycle
  import opened MoveOrder

  // ----- rows after a placement -----

  /** Only the key and the stamp of the row differ. */
  predicate Restamped(before: Card, after: Card, now: int)
  {
    after == before.(key := after.key, updatedAt := now)
  }

  /** Apart from the rows of `except`, only live children of `parent` may have a new key, and
      then they carry the stamp; everything else is exactly as before. */
  ghost predicate OthersKept(t: Table, t': Table, project: string, parent: Option<Id>, except: seq<Id>, now: int)
  {
    && t'.Keys == t.Keys
    && forall x :: x in t && x !in except ==>
         t'[x] == t[x] || (ChildOf(t[x], project, parent) && Restamped(t[x], t'[x], now))
  }

  /** A written card is the row it stands for, or the block card below its new parent, with a
      new key and stamp. */
  lemma PlacementChanged(t: Table, project: string, parent: Option<Id>, dest: seq<Card>, at: nat, block: seq<Card>,
                         now: int, p: Placed, c: Card)
    requires WellKeyed(t) && IsDestination(t, project, parent, block, dest) && IsBlock(t, project, block)
    requires at <= |dest| && IsPlacement(Spliced(dest, at, block, parent), at, at + |block|, now, p)
    requires c in p.changed
    ensures c.id in t && t[c.id].project == c.project
    ensures c.id !in Ids(block) ==> ChildOf(t[c.id], project, parent) && Restamped(t[c.id], c, now)
    ensures forall j :: 0 <= j < |block| && block[j].id == c.id ==> Restamped(block[j].(parent := parent), c, now)
  {
    hide IsDestination, IsBlock, Spliced;
    var list := Spliced(dest, at, block, parent);
    assert Touched(list, at, at + |block|, p.list, c);
    var i :| 0 <= i < |list| && p.list[i] == c && (at <= i < at + |block| || p.list[i] != list[i]);
    assert SameBut(list[i], p.list[i], now, at <= i < at + |block|);
    assert Restamped(list[i], c, now);
    SplicedAt(t, project, parent, dest, at, block, i);
    SplicedCard(t, project, parent, dest, at, block, i);
  }

  lemma SplicedCard(t: Table, project: string, parent: Option<Id>, dest: seq<Card>, at: nat, block: seq<Card>, i: nat)
    requires WellKeyed(t) && IsDestination(t, project, parent, block, dest) && IsBlock(t, project, block)
    requires at <= |dest| && i < |dest| + |block|
    ensures var c := Spliced(dest, at, block, parent)[i];
      && (c.id !in Ids(block) ==> c.id in t && t[c.id] == c)
      && forall j :: 0 <= j < |block| && block[j].id == c.id ==> c == block[j].(parent := parent)
  {
    var c := Spliced(dest, at, block, parent)[i];
    if at <= i < at + |block| {
      assert Ids(block)[i - at] == c.id;
    } else {
      assert c in dest;
      assert forall j :: 0 <= j < |block| ==> block[j].id in Ids(block) by {
        forall j | 0 <= j < |block|
          ensures block[j].id in Ids(block)
        {
          assert Ids(block)[j] == block[j].id;
        }
      }
    }
  }

  /** The whole table after a placement is written. */
  lemma PlacementEffect(t: Table, project: string, parent: Option<Id>, dest: seq<Card>, at: nat, block: seq<Card>,
                        now: int, p: Placed)
    requires WellKeyed(t) && IsDestination(t, project, parent, block, dest) && IsBlock(t, project, block)
    requires at <= |dest| && IsPlacement(Spliced(dest, at, block, parent), at, at + |block|, now, p)
    ensures var t' := SaveAll(t, p.changed);
      && OthersKept(t, t', project, parent, Ids(block), now)
      && forall j :: 0 <= j < |block| ==>
           block[j].id in t' && Restamped(block[j].(parent := parent), t'[block[j].id], now)
  {
    hide IsDestination, IsBlock, Spliced, IsPlacement, SaveAll, Restamped, ChildOf;
    var t' := SaveAll(t, p.changed);
    PlacementRows(t, project, parent, dest, at, block, now, p);
    forall c | c in p.changed
      ensures c.id in t && t[c.id].project == c.project
      ensures c.id !in Ids(block) ==> ChildOf(t[c.id], project, parent) && Restamped(t[c.id], c, now)
      ensures forall j :: 0 <= j < |block| && block[j].id == c.id ==> Restamped(block[j].(parent := parent), c, now)
    {
      PlacementChanged(t, project, parent, dest, at, block, now, p, c);
    }
    SaveAllRows(t, p.changed);
    forall j | 0 <= j < |block|
      ensures block[j].id in t' && Restamped(block[j].(parent := parent), t'[block[j].id], now)
    {
      assert Ids(block)[j] == block[j].id;
      PlacementCovers(t, project, parent, dest, at, block, now, p, block[j].id);
      var c :| c in p.changed && c.id == block[j].id;
    }
    forall x | x in t && x !in Ids(block)
      ensures t'[x] == t[x] || (ChildOf(t[x], project, parent) && Restamped(t[x], t'[x], now))
    {
      if c :| c in p.changed && c.id == x { assert t'[c.id] == c; }
    }
  }

  // ----- parents -----

  /** The place below `d` is open to the card: `d` is no card at all, or a live card that is
      neither the card itself nor below it. */
  ghost predicate Open(t: Table, project: string, d: Option<Id>, id: Id)
  {
    d.Some? ==> LiveIn(t, project, d.value) && forall k: nat :: !Ancestor(t, project, d, k, id)
  }

  lemma {:induction false} AnchoredAvoids(t: Table, project: string, d: Option<Id>, id: Id, n: nat, k: nat)
    requires Anchored(t, project, d, {id}, n)
    ensures !Ancestor(t, project, d, k, id)
    decreases n
  {
    if d.Some? && k > 0 { AnchoredAvoids(t, project, t[d.value].parent, id, n - 1, k - 1); }
  }

  lemma {:induction false} AvoidsAnchored(t: Table, project: string, d: Option<Id>, id: Id, n: nat)
    requires Anchored(t, project, d, {}, n) && forall k: nat :: !Ancestor(t, project, d, k, id)
    ensures Anchored(t, project, d, {id}, n)
    decreases n
  {
    if d.Some? {
      assert !Ancestor(t, project, d, 0, id);
      forall k: nat
        ensures !Ancestor(t, project, t[d.value].parent, k, id)
      {
        assert !Ancestor(t, project, d, k + 1, id);
      }
      AvoidsAnchored(t, project, t[d.value].parent, id, n - 1);
    }
  }

  /** In a forest the parents that validation accepts are the live cards outside the subtree. */
  lemma OpenExact(t: Table, project: string, d: Option<Id>, id: Id)
    requires Forest(t)
    ensures Open(t, project, d, id) <==> Reachable(t, project, d, {id})
  {
    if d.None? {
      assert Anchored(t, project, d, {id}, 0);
    } else if Reachable(t, project, d, {id}) {
      var n: nat :| Anchored(t, project, d, {id}, n);
      forall k: nat
        ensures !Ancestor(t, project, d, k, id)
      {
        AnchoredAvoids(t, project, d, id, n, k);
      }
    } else if Open(t, project, d, id) {
      var n: nat :| Anchored(t, project, d, {}, n);
      AvoidsAnchored(t, project, d, id, n);
      assert false;
    }
  }

  /** In a forest a live card's own parent is always open to it. */
  lemma OwnParentOpen(t: Table, id: Id)
    requires Forest(t) && id in t && t[id].Live()
    ensures Reachable(t, t[id].project, t[id].parent, {id})
  {
    var n: nat :| Anchored(t, t[id].project, Some(id), {}, n);
    StepAvoids(t, t[id].project, t[id].parent, {}, id, n - 1, n);
    assert {} + {id} == {id};
  }

  // ----- trash the subtree -----

  /** The chain of parents above `x`, inside the project, leads to `id`. */
  ghost predicate LeadsTo(t: Table, x: Id, id: Id)
    requires x in t && id in t
  {
    t[x].project == t[id].project && exists k: nat :: Ancestor(t, t[id].project, t[x].parent, k, id)
  }

  /** The rows a subtree deletion takes are the live cards that are `id` or have it somewhere
      up their chain; they are stamped, and every other row is exactly as before. */
  lemma SubtreeTrashed(t: Table, id: Id, now: int)
    ensures TrashSubtree(t, id, now).Ok? <==> id in t && t[id].Live()
    ensures TrashSubtree(t, id, now).Ok? ==>
      var t' := TrashSubtree(t, id, now).value;
      && t'.Keys == t.Keys
      && (forall x :: x in t ==> (t'[x].Live() <==> t[x].Live() && x != id && !LeadsTo(t, x, id)))
      && (forall x :: x in t && t[x].Live() && !t'[x].Live() ==>
            t'[x] == t[x].(deletedAt := Some(now), updatedAt := now))
      && (forall x :: x in t && (!t[x].Live() || t'[x].Live()) ==> t'[x] == t[x])
  {
    hide Ancestor;
    if id in t && t[id].Live() {
      var t' := TrashSubtree(t, id, now).value;
      forall x | x in t
        ensures InSubtree(t, x, id) == (x == id || LeadsTo(t, x, id))
        ensures t'[x] == if InSubtree(t, x, id) && t[x].Live() then Trashed(t[x], now) else t[x]
      {
      }
    }
  }

  // ----- move to a place -----

  /** The ids of the live children of `parent`, in order, the card itself left out. */
  ghost function Others(t: Table, project: string, parent: Option<Id>, id: Id): seq<Id>
    requires WellKeyed(t)
  {
    Ids(SiblingsFor(t, project, parent, id))
  }

  /** The card is a child of `parent` now, whose children are `order`, and of its own row only the
      parent, the key and the stamp may differ; other rows at most make room. */
  ghost predicate Stands(t: Table, t': Table, project: string, id: Id, parent: Option<Id>, order: seq<Id>, now: int)
  {
    && WellKeyed(t') && Ids(Siblings(t', project, parent)) == order
    && id in t && id in t' && t'[id].parent == parent
    && (t' == t || Restamped(t[id].(parent := parent), t'[id], now))
    && OthersKept(t, t', project, parent, [id], now)
  }

  lemma MoveUnfolds(a: Arithmetic, t: Table, project: string, id: Id, q: Request, now: int)
    requires WellKeyed(t) && MoveTo(a, t, project, id, q, now).Ok?
    ensures LiveIn(t, project, id) && id in t && Resolve(t, project, id, q).Ok?
    ensures var target := Resolve(t, project, id, q).value;
      if target.at.None? then MoveTo(a, t, project, id, q, now) == Ok(t)
      else
        && target.dest == Without(Siblings(t, project, target.parent), id) && target.at.value <= |target.dest|
        && InsertBlock(a, target.dest, target.at.value, [t[id]], target.parent, now).Ok?
        && var p := InsertBlock(a, target.dest, target.at.value, [t[id]], target.parent, now).value;
           MoveTo(a, t, project, id, q, now) == Ok(if Unmoved(t, id, p.changed) then t else SaveAll(t, p.changed))
  {
    hide Resolve, InsertBlock, SaveAll, Unmoved, ValidateParent, Without, Siblings;
  }

  /** An accepted move to index `at` of the others below `parent`. */
  lemma MovedTo(a: Arithmetic, t: Table, project: string, id: Id, q: Request, now: int, parent: Option<Id>, at: nat)
    requires WellKeyed(t) && MoveTo(a, t, project, id, q, now).Ok?
    requires Resolve(t, project, id, q) == Ok(Target(parent, SiblingsFor(t, project, parent, id), Some(at)))
    ensures at <= |Others(t, project, parent, id)|
    ensures var others := Others(t, project, parent, id);
      Stands(t, MoveTo(a, t, project, id, q, now).value, project, id, parent, others[..at] + [id] + others[at..], now)
  {
    hide *;
    var t' := MoveTo(a, t, project, id, q, now).value;
    var dest := Without(Siblings(t, project, parent), id);
    MoveUnfolds(a, t, project, id, q, now);
    OthersAre(t, project, parent, id);
    var p := InsertBlock(a, dest, at, [t[id]], parent, now).value;
    PlacedReadBack(a, t, project, parent, dest, at, id, now, p);
    OneBlock(t, project, id, parent);
    var card := t[id].(parent := parent);
    OneId(card);
    SameBlock(a, dest, at, t[id], parent, now);
    DestinationSorted(t, project, parent, card);
    DestinationFor(t, project, parent, card);
    InsertBlockPlaces(a, dest, at, [card], parent, now);
    PlacementEffect(t, project, parent, dest, at, [card], now, p);
    assert [card][0] == card;
    PartIds(dest, at);
    if t' == t {
      StandsStill(t, project, id, parent, p.list, now);
    } else {
      StandsFrom(t, t', project, id, parent, p.list, now);
    }
  }

  lemma OthersAre(t: Table, project: string, parent: Option<Id>, id: Id)
    requires WellKeyed(t)
    ensures SiblingsFor(t, project, parent, id) == Without(Siblings(t, project, parent), id)
    ensures Others(t, project, parent, id) == Ids(SiblingsFor(t, project, parent, id))
    ensures |Others(t, project, parent, id)| == |SiblingsFor(t, project, parent, id)|
  {
    hide Without, Siblings;
  }

  lemma StandsFrom(t: Table, t': Table, project: string, id: Id, parent: Option<Id>, list: seq<Card>, now: int)
    requires ReadsBack(t, t', project, parent, id, list) && id in t && id in t'
    requires Restamped(t[id].(parent := parent), t'[id], now) && OthersKept(t, t', project, parent, [id], now)
    ensures Stands(t, t', project, id, parent, Ids(list), now)
  {
    hide Siblings, SamePlaces, OthersKept;
    assert id in [id];
  }

  lemma StandsStill(t: Table, project: string, id: Id, parent: Option<Id>, list: seq<Card>, now: int)
    requires ReadsBack(t, t, project, parent, id, list) && id in t
    ensures Stands(t, t, project, id, parent, Ids(list), now)
  {
    hide Siblings, SamePlaces;
    assert id in [id];
  }

  lemma ResolveCases(t: Table, project: string, id: Id, q: Request)
    requires WellKeyed(t) && Resolve(t, project, id, q).Ok?
    ensures LiveIn(t, project, id) && id in t
    ensures Resolve(t, project, id, q) == match q.intent
      case Into => ResolveInto(t, project, id, q)
      case Before => ResolveBeside(t, project, id, q)
      case After => ResolveBeside(t, project, id, q)
      case UpLevel => ResolveUp(t, project, id)
      case _ => ResolveWithin(t, project, id, q)
  {
    hide ResolveInto, ResolveBeside, ResolveWithin, ResolveUp, GoodTarget;
  }

  /** Into: last among the target's children. */
  lemma MovedInto(a: Arithmetic, t: Table, project: string, id: Id, q: Request, now: int)
    requires WellKeyed(t) && q.intent.Into? && MoveTo(a, t, project, id, q, now).Ok?
    ensures q.target.Some? &&
      Stands(t, MoveTo(a, t, project, id, q, now).value, project, id, q.target,
             Others(t, project, q.target, id) + [id], now)
  {
    hide MoveTo, Stands, Siblings, Without, Resolve, IsDescendantOf;
    MoveUnfolds(a, t, project, id, q, now);
    ResolveCases(t, project, id, q);
    OthersAre(t, project, q.target, id);
    var others := Others(t, project, q.target, id);
    MovedTo(a, t, project, id, q, now, q.target, |others|);
    assert others[..|others|] + [id] + others[|others|..] == others + [id];
  }

  /** Before and After: immediately on that side of the target, below the target's parent. */
  lemma MovedBeside(a: Arithmetic, t: Table, project: string, id: Id, q: Request, now: int)
    returns (left: seq<Id>, right: seq<Id>)
    requires WellKeyed(t) && (q.intent.Before? || q.intent.After?) && MoveTo(a, t, project, id, q, now).Ok?
    ensures q.target.Some? && LiveIn(t, project, q.target.value)
    ensures var x, parent := q.target.value, t[q.target.value].parent;
      && Others(t, project, parent, id) == left + [x] + right
      && Stands(t, MoveTo(a, t, project, id, q, now).value, project, id, parent,
                left + (if q.intent.Before? then [id, x] else [x, id]) + right, now)
  {
    hide *;
    MoveUnfolds(a, t, project, id, q, now);
    BesidePlace(t, project, id, q);
    var x := q.target.value;
    var parent := t[x].parent;
    OthersAre(t, project, parent, id);
    var others, dest := Others(t, project, parent, id), SiblingsFor(t, project, parent, id);
    var i := IndexOf(dest, x);
    left, right := others[..i], others[i + 1..];
    assert others[i] == dest[i].id == x;
    if q.intent.Before? {
      MovedTo(a, t, project, id, q, now, parent, i);
      assert others[..i] + [id] + others[i..] == left + [id, x] + right;
    } else {
      MovedTo(a, t, project, id, q, now, parent, i + 1);
      assert others[..i + 1] + [id] + others[i + 1..] == left + [x, id] + right;
    }
  }

  /** The place beside the target. */
  lemma BesidePlace(t: Table, project: string, id: Id, q: Request)
    requires WellKeyed(t) && (q.intent.Before? || q.intent.After?) && Resolve(t, project, id, q).Ok?
    ensures q.target.Some? && LiveIn(t, project, q.target.value) && q.target.value in t
    ensures var x, parent := q.target.value, t[q.target.value].parent;
      var dest := SiblingsFor(t, project, parent, id);
      var i := IndexOf(dest, x);
      && i < |dest| && dest[i].id == x
      && Resolve(t, project, id, q) == Ok(Target(parent, dest, Some(if q.intent.Before? then i else i + 1)))
  {
    hide Siblings, Without, Resolve, IndexOf, SiblingsFor, GoodTarget;
    ResolveCases(t, project, id, q);
  }

  /** The parent a request names, or the card's own. */
  function Asked(t: Table, id: Id, q: Request): Option<Id>
    requires id in t
  {
    if q.hasParent || q.parent.Some? then q.parent else t[id].parent
  }

  /** ToStart and ToEnd: first or last below the requested parent. */
  lemma MovedToEdge(a: Arithmetic, t: Table, project: string, id: Id, q: Request, now: int)
    requires WellKeyed(t) && (q.intent.ToStart? || q.intent.ToEnd?) && MoveTo(a, t, project, id, q, now).Ok?
    ensures id in t
    ensures var parent := Asked(t, id, q);
      Stands(t, MoveTo(a, t, project, id, q, now).value, project, id, parent,
             if q.intent.ToStart? then [id] + Others(t, project, parent, id) else Others(t, project, parent, id) + [id],
             now)
  {
    hide MoveTo, Stands, Siblings, Without, Resolve, IndexOf;
    MoveUnfolds(a, t, project, id, q, now);
    ResolveCases(t, project, id, q);
    var parent := Asked(t, id, q);
    OthersAre(t, project, parent, id);
    var others := Others(t, project, parent, id);
    if Resolve(t, project, id, q).value.at.None? {
      OnlyChild(t, project, id, now);
      assert [id] + others == [id] == others + [id];
    } else if q.intent.ToStart? {
      MovedTo(a, t, project, id, q, now, parent, 0);
      assert others[..0] + [id] + others[0..] == [id] + others;
    } else {
      MovedTo(a, t, project, id, q, now, parent, |others|);
      assert others[..|others|] + [id] + others[|others|..] == others + [id];
    }
  }

  /** A card alone below its parent already stands first and last. */
  lemma OnlyChild(t: Table, project: string, id: Id, now: int)
    requires WellKeyed(t) && LiveIn(t, project, id) && SiblingsFor(t, project, t[id].parent, id) == []
    ensures Stands(t, t, project, id, t[id].parent, [id], now)
  {
    hide Siblings, Without;
    CutPlace(t, id);
    var siblings := Siblings(t, project, t[id].parent);
    assert |siblings| == 1 && Ids(siblings)[0] == id;
  }

  /** UpLevel: last below the grandparent, or among the roots if the parent is not live. */
  lemma MovedUp(a: Arithmetic, t: Table, project: string, id: Id, q: Request, now: int)
    requires WellKeyed(t) && q.intent.UpLevel? && MoveTo(a, t, project, id, q, now).Ok?
    ensures id in t && t[id].parent.Some?
    ensures var p := t[id].parent.value;
      var parent := if p in t && t[p].project == project && t[p].deletedAt.None? then t[p].parent else None;
      Stands(t, MoveTo(a, t, project, id, q, now).value, project, id, parent,
             Others(t, project, parent, id) + [id], now)
  {
    hide MoveTo, Stands, Siblings, Without, Resolve;
    MoveUnfolds(a, t, project, id, q, now);
    ResolveCases(t, project, id, q);
    var p := t[id].parent.value;
    var parent := if p in t && t[p].project == project && t[p].deletedAt.None? then t[p].parent else None;
    OthersAre(t, project, parent, id);
    var others := Others(t, project, parent, id);
    MovedTo(a, t, project, id, q, now, parent, |others|);
    assert others[..|others|] + [id] + others[|others|..] == others + [id];
  }

  /** Left and Right: one place among its siblings, if there is one to pass and the parent asked
      for is its own. Otherwise nothing moves. */
  lemma MovedSideways(a: Arithmetic, t: Table, project: string, id: Id, q: Request, now: int)
    returns (left: seq<Id>, right: seq<Id>)
    requires WellKeyed(t) && (q.intent.Left? || q.intent.Right?) && MoveTo(a, t, project, id, q, now).Ok?
    ensures id in t
    ensures var parent, t' := Asked(t, id, q), MoveTo(a, t, project, id, q, now).value;
      if parent != t[id].parent then t' == t
      else
        && Ids(Siblings(t, project, parent)) == left + [id] + right
        && if q.intent.Left? then
             if left == [] then t' == t
             else Stands(t, t', project, id, parent, left[..|left| - 1] + [id, left[|left| - 1]] + right, now)
           else
             if right == [] then t' == t
             else Stands(t, t', project, id, parent, left + [right[0], id] + right[1..], now)
  {
    hide *;
    MoveUnfolds(a, t, project, id, q, now);
    SidewaysPlace(t, project, id, q);
    var parent := t[id].parent;
    if Asked(t, id, q) != parent {
      left, right := [], [];
    } else {
      LiveInRow(t, project, id);
      var all := Siblings(t, project, parent);
      var i := IndexOf(all, id);
      var ids := Ids(all);
      left, right := ids[..i], ids[i + 1..];
      assert ids[i] == id && ids == left + [id] + right;
      OthersAre(t, project, parent, id);
      CutIds(all, i);
      var others := Others(t, project, parent, id);
      assert others == left + right;
      if q.intent.Left? && i > 0 {
        MovedTo(a, t, project, id, q, now, parent, i - 1);
        PassLeft(left, id, right);
      } else if q.intent.Right? && i + 1 < |all| {
        MovedTo(a, t, project, id, q, now, parent, i + 1);
        PassRight(left, id, right);
      }
    }
  }

  lemma PassLeft(left: seq<Id>, id: Id, right: seq<Id>)
    requires left != []
    ensures var others, i := left + right, |left| - 1;
      others[..i] + [id] + others[i..] == left[..i] + [id, left[i]] + right
  {
    assert (left + right)[|left| - 1..] == [left[|left| - 1]] + right;
  }

  lemma PassRight(left: seq<Id>, id: Id, right: seq<Id>)
    requires right != []
    ensures var others, i := left + right, |left| + 1;
      others[..i] + [id] + others[i..] == left + [right[0], id] + right[1..]
  {
    assert (left + right)[..|left| + 1] == left + [right[0]];
  }

  /** The place one step aside. */
  lemma SidewaysPlace(t: Table, project: string, id: Id, q: Request)
    requires WellKeyed(t) && (q.intent.Left? || q.intent.Right?) && Resolve(t, project, id, q).Ok?
    ensures LiveIn(t, project, id) && id in t && t[id].project == project
    ensures Asked(t, id, q) != t[id].parent ==> Resolve(t, project, id, q).value.at.None?
    ensures Asked(t, id, q) == t[id].parent ==>
      var all := Siblings(t, project, t[id].parent);
      var i := IndexOf(all, id);
      && i < |all| && SiblingsFor(t, project, t[id].parent, id) == all[..i] + all[i + 1..]
      && Resolve(t, project, id, q) ==
           Ok(Target(t[id].parent, SiblingsFor(t, project, t[id].parent, id),
                     if q.intent.Left? then (if i > 0 then Some(i - 1) else None)
                     else if i + 1 < |all| then Some(i + 1) else None))
  {
    hide Siblings, Without, Resolve, IndexOf;
    ResolveCases(t, project, id, q);
    if Asked(t, id, q) != t[id].parent { NotAmong(t, project, Asked(t, id, q), id); }
    CutPlace(t, id);
  }

  /** A card is not among the children of any other parent. */
  lemma NotAmong(t: Table, project: string, parent: Option<Id>, id: Id)
    requires WellKeyed(t) && id in t && t[id].parent != parent
    ensures IndexOf(Siblings(t, project, parent), id) == |Siblings(t, project, parent)|
  {
    hide Siblings, IndexOf;
    SiblingsMember(t, project, parent);
    assert forall c :: c in Siblings(t, project, parent) ==> c.id != id;
  }

  // ----- when a move is accepted -----

  /** What a request must name. The target of Into, Before and After must be neither the card
      nor below it, and so must the parent that ToStart and ToEnd ask for. */
  ghost predicate Admissible(t: Table, project: string, id: Id, q: Request)
    requires id in t
  {
    match q.intent
    case Into => q.target.Some? && Open(t, project, q.target, id)
    case Before => q.target.Some? && Open(t, project, q.target, id)
    case After => q.target.Some? && Open(t, project, q.target, id)
    case ToStart => Open(t, project, Asked(t, id, q), id)
    case ToEnd => Open(t, project, Asked(t, id, q), id)
    case Left => Asked(t, id, q).Some? ==> LiveIn(t, project, Asked(t, id, q).value)
    case Right => Asked(t, id, q).Some? ==> LiveIn(t, project, Asked(t, id, q).value)
    case UpLevel => t[id].parent.Some?
  }

  /** Where keys can be found, a move is accepted exactly for a live card of the project and an
      admissible request, however long the chains of ancestors are. */
  lemma MoveAccepted(a: Arithmetic, t: Table, project: string, id: Id, q: Request, now: int)
    requires WellKeyed(t) && Forest(t) && Roomy(a)
    ensures MoveTo(a, t, project, id, q, now).Ok? <==> LiveIn(t, project, id) && Admissible(t, project, id, q)
  {
    hide *;
    ResolveAccepts(t, project, id, q);
    if Resolve(t, project, id, q).Ok? {
      PlaceAccepted(a, t, project, id, q, now);
      TargetOpen(t, project, id, q);
    } else {
      ResolveFails(a, t, project, id, q, now);
    }
  }

  lemma ResolveFails(a: Arithmetic, t: Table, project: string, id: Id, q: Request, now: int)
    requires WellKeyed(t) && Resolve(t, project, id, q).Err?
    ensures MoveTo(a, t, project, id, q, now).Err?
  {
    hide Resolve;
  }

  /** Once there is a place, validation of the new parent decides. */
  lemma PlaceAccepted(a: Arithmetic, t: Table, project: string, id: Id, q: Request, now: int)
    requires WellKeyed(t) && Forest(t) && Roomy(a) && Resolve(t, project, id, q).Ok?
    ensures var target := Resolve(t, project, id, q).value;
      MoveTo(a, t, project, id, q, now).Ok? <==> target.at.None? || Reachable(t, project, target.parent, {id})
  {
    var target := Resolve(t, project, id, q).value;
    assert target.at.Some? ==> target.dest == Without(Siblings(t, project, target.parent), id);
    hide Resolve, InsertBlock, SaveAll, Unmoved, ValidateParent, Without, Siblings, Forest, Roomy, Reachable;
    if target.at.Some? {
      RoomyPlaces(a, target.dest, target.at.value, [t[id]], target.parent, now);
      var p := InsertBlock(a, target.dest, target.at.value, [t[id]], target.parent, now).value;
      ValidateParentExact(t, t[id].(parent := target.parent));
      if Unmoved(t, id, p.changed) {
        UnmovedParent(a, t, project, id, target.parent, target.at.value, now);
        OwnParentOpen(t, id);
      }
    }
  }

  /** A card that is reported unmoved was asked to stay below its own parent. */
  lemma UnmovedParent(a: Arithmetic, t: Table, project: string, id: Id, parent: Option<Id>, at: nat, now: int)
    requires WellKeyed(t) && LiveIn(t, project, id) && at <= |Without(Siblings(t, project, parent), id)|
    requires InsertBlock(a, Without(Siblings(t, project, parent), id), at, [t[id]], parent, now).Ok?
    requires Unmoved(t, id, InsertBlock(a, Without(Siblings(t, project, parent), id), at, [t[id]], parent, now)
                            .value.changed)
    ensures t[id].parent == parent
  {
    hide *;
    var dest := Without(Siblings(t, project, parent), id);
    OneBlock(t, project, id, parent);
    var card := t[id].(parent := parent);
    OneId(card);
    SameBlock(a, dest, at, t[id], parent, now);
    DestinationSorted(t, project, parent, card);
    DestinationFor(t, project, parent, card);
    InsertBlockPlaces(a, dest, at, [card], parent, now);
    var p := InsertBlock(a, dest, at, [card], parent, now).value;
    UnmovedFirst(t, id, p.changed);
    PlacementChanged(t, project, parent, dest, at, [card], now, p, p.changed[0]);
    assert [card][0].id == p.changed[0].id;
    RestampedParent(card.(parent := parent), p.changed[0], now);
  }

  lemma UnmovedFirst(t: Table, id: Id, changed: seq<Card>)
    requires id in t && Unmoved(t, id, changed)
    ensures |changed| == 1 && changed[0] in changed && changed[0].id == id && changed[0].parent == t[id].parent
  {
  }

  lemma RestampedParent(before: Card, after: Card, now: int)
    requires Restamped(before, after, now)
    ensures after.parent == before.parent
  {
  }

  /** When the resolver finds no fault. Its own cycle check may give up, and only Into has one. */
  lemma ResolveAccepts(t: Table, project: string, id: Id, q: Request)
    requires WellKeyed(t) && Forest(t)
    ensures Resolve(t, project, id, q).Ok? ==> LiveIn(t, project, id) && id in t
    ensures LiveIn(t, project, id) && Admissible(t, project, id, q) ==> Resolve(t, project, id, q).Ok?
  {
    hide Siblings, Without, IsDescendantOf, GoodTarget, Ancestor, Forest, IndexOf, SiblingsFor;
    if LiveIn(t, project, id) && Admissible(t, project, id, q) {
      match q.intent
      case Into =>
        if IsDescendantOf(t, project, q.target, id, 0) {
          var k := DescendantIsReal(t, project, q.target, id, 0);
        }
      case Before => TargetAmong(t, project, id, q.target.value);
      case After => TargetAmong(t, project, id, q.target.value);
      case _ =>
    }
  }

  lemma TargetAmong(t: Table, project: string, id: Id, x: Id)
    requires WellKeyed(t) && LiveIn(t, project, x) && !Ancestor(t, project, Some(x), 0, id)
    ensures IndexOf(SiblingsFor(t, project, t[x].parent, id), x) < |SiblingsFor(t, project, t[x].parent, id)|
  {
    hide Siblings, Without;
    var all := Siblings(t, project, t[x].parent);
    SiblingsMember(t, project, t[x].parent);
    WithoutMember(all, id, t[x]);
    assert t[x] in SiblingsFor(t, project, t[x].parent, id);
  }

  /** The parent found is open to the card exactly when the request is admissible. */
  lemma TargetOpen(t: Table, project: string, id: Id, q: Request)
    requires WellKeyed(t) && Forest(t) && Resolve(t, project, id, q).Ok?
    ensures LiveIn(t, project, id) && id in t
    ensures var target := Resolve(t, project, id, q).value;
      Admissible(t, project, id, q) <==> target.at.None? || Reachable(t, project, target.parent, {id})
  {
    hide Resolve, Siblings, Without, Forest, GoodTarget, IndexOf, Reachable, Ancestor;
    ResolveCases(t, project, id, q);
    var target := Resolve(t, project, id, q).value;
    OpenExact(t, project, target.parent, id);
    OwnParentOpen(t, id);
    OpenExact(t, project, t[id].parent, id);
    match q.intent
    case Into =>
    case Before => OpenBeside(t, project, id, q);
    case After => OpenBeside(t, project, id, q);
    case ToStart =>
    case ToEnd =>
    case UpLevel => OpenAbove(t, t[id].parent.value, id);
    case _ => SidewaysPlace(t, project, id, q);
  }

  /** Beside a target is open exactly if the target itself is. */
  lemma OpenBeside(t: Table, project: string, id: Id, q: Request)
    requires WellKeyed(t) && Forest(t) && (q.intent.Before? || q.intent.After?) && Resolve(t, project, id, q).Ok?
    ensures q.target.Some? && q.target.value in t
    ensures Open(t, project, q.target, id) <==> Open(t, project, t[q.target.value].parent, id)
  {
    hide Resolve, Siblings, Without, GoodTarget, IndexOf;
    BesidePlace(t, project, id, q);
    var x := q.target.value;
    var parent := t[x].parent;
    var dest := SiblingsFor(t, project, parent, id);
    WithoutMember(Siblings(t, project, parent), id, dest[IndexOf(dest, x)]);
    var n: nat :| Anchored(t, project, Some(x), {}, n);
    assert Anchored(t, project, parent, {}, n - 1);
    forall k: nat
      ensures Ancestor(t, project, Some(x), k + 1, id) == Ancestor(t, project, parent, k, id)
    {
    }
    forall k: nat
      ensures Ancestor(t, project, Some(x), k, id) ==> k > 0 && Ancestor(t, project, parent, k - 1, id)
    {
    }
  }

  /** The grandparent of a card in a forest is open to it. */
  lemma OpenAbove(t: Table, p: Id, id: Id)
    requires id in t && Reachable(t, t[id].project, Some(p), {id})
    ensures LiveIn(t, t[id].project, p) && Reachable(t, t[id].project, t[p].parent, {id})
  {
    var n: nat :| Anchored(t, t[id].project, Some(p), {id}, n);
    assert Anchored(t, t[id].project, t[p].parent, {id}, n - 1);
  }

  // ----- create, move, delete -----

  /** One past the largest key among the live children of `parent`, or zero if there are none. */
  ghost predicate Following(t: Table, project: string, parent: Option<Id>, key: real)
  {
    if forall x :: x in t ==> !ChildOf(t[x], project, parent) then key == 0.0
    else
      && (exists x :: x in t && ChildOf(t[x], project, parent) && key == t[x].key + 1.0)
      && (forall x :: x in t && ChildOf(t[x], project, parent) ==> t[x].key + 1.0 <= key)
  }

  lemma NextKeyFollows(t: Table, project: string, parent: Option<Id>)
    requires WellKeyed(t)
    ensures Following(t, project, parent, NextKey(t, project, parent))
  {
    hide Siblings, ChildOf;
    var s := Siblings(t, project, parent);
    SiblingsMember(t, project, parent);
    assert forall x :: x in t && ChildOf(t[x], project, parent) ==> t[x] in s;
    if s != [] {
      var last := s[|s| - 1];
      assert last in s;
      forall c | c in s
        ensures c.key <= last.key
      {
        var i :| 0 <= i < |s| && s[i] == c;
        assert i == |s| - 1 || Less(TreeOrder, s[i], last);
      }
    }
  }

  /** The row is the only one written. */
  ghost predicate OnlyRow(t: Table, t': Table, id: Id)
  {
    t'.Keys == t.Keys + {id} && forall x :: x in t && x != id ==> t'[x] == t[x]
  }

  /** A row written with a following key comes last among its siblings. */
  lemma Appended(t: Table, t': Table, card: Card)
    requires WellKeyed(t) && card.Live() && Following(t, card.project, card.parent, card.key)
    requires OnlyRow(t, t', card.id) && t'[card.id] == card
    requires card.id in t ==> !ChildOf(t[card.id], card.project, card.parent)
    ensures WellKeyed(t')
    ensures Ids(Siblings(t', card.project, card.parent)) == Ids(Siblings(t, card.project, card.parent)) + [card.id]
  {
    hide Siblings, Less;
    var s := Siblings(t, card.project, card.parent);
    SiblingsMember(t, card.project, card.parent);
    forall i | 0 <= i < |s|
      ensures Less(TreeOrder, s[i], card)
    {
      assert s[i] in s;
      FollowingLess(t, card, s[i]);
    }
    hide Following;
    forall c: Card
      ensures c in s + [card] <==> c.id in t' && t'[c.id] == c && ChildOf(c, card.project, card.parent)
    {
      if c.id != card.id { assert c.id in t' ==> c.id in t; }
    }
    SiblingsAre(t', card.project, card.parent, s + [card]);
    assert Ids(s + [card]) == Ids(s) + [card.id];
  }

  lemma FollowingLess(t: Table, card: Card, c: Card)
    requires Following(t, card.project, card.parent, card.key)
    requires c.id in t && t[c.id] == c && ChildOf(c, card.project, card.parent)
    ensures Less(TreeOrder, c, card)
  {
    assert c.key + 1.0 <= card.key;
  }

  /** Create: an unused id below a reachable parent; the row is the card with its explicit key,
      or else last among its siblings. */
  lemma Created(t: Table, card: Card, key: Option<real>)
    requires WellKeyed(t)
    ensures Create(t, card, key).Ok? <==> card.id !in t && Reachable(t, card.project, card.parent, {card.id})
    ensures Create(t, card, key).Ok? ==>
      var t' := Create(t, card, key).value;
      && OnlyRow(t, t', card.id) && t'[card.id] == card.(key := t'[card.id].key)
      && (key.Some? ==> t'[card.id].key == key.value)
      && (key.None? ==> Following(t, card.project, card.parent, t'[card.id].key))
      && (key.None? && card.Live() ==>
            && WellKeyed(t')
            && Ids(Siblings(t', card.project, card.parent)) ==
               Ids(Siblings(t, card.project, card.parent)) + [card.id])
  {
    hide NextKey, ValidateParent, Siblings, Following, Reachable;
    ValidateParentExact(t, card);
    NextKeyFollows(t, card.project, card.parent);
    if Create(t, card, key).Ok? && key.None? && card.Live() {
      var t' := Create(t, card, key).value;
      Appended(t, t', t'[card.id]);
    }
  }

  /** Move: a live card below a reachable parent; its row takes the parent and the explicit key,
      else a key after its new siblings, else its own. Nothing is stamped if nothing changes. */
  lemma Moved(t: Table, id: Id, hasParent: bool, parent: Option<Id>, key: Option<real>, now: int)
    requires WellKeyed(t)
    ensures Move(t, id, hasParent, parent, key, now).Ok? <==>
      (id in t && t[id].Live() &&
       Reachable(t, t[id].project, if hasParent then parent else t[id].parent, {id}))
    ensures Move(t, id, hasParent, parent, key, now).Ok? ==>
      var t', next := Move(t, id, hasParent, parent, key, now).value, if hasParent then parent else t[id].parent;
      && OnlyRow(t, t', id) && t'[id].parent == next
      && t'[id] == t[id].(parent := next, key := t'[id].key, updatedAt := t'[id].updatedAt)
      && t'[id].updatedAt == (if next == t[id].parent && t'[id].key == t[id].key then t[id].updatedAt else now)
      && (key.Some? ==> t'[id].key == key.value)
      && (key.None? && next == t[id].parent ==> t'[id].key == t[id].key)
      && (key.None? && next != t[id].parent ==>
            && Following(t, t[id].project, next, t'[id].key) && WellKeyed(t')
            && Ids(Siblings(t', t[id].project, next)) == Ids(Siblings(t, t[id].project, next)) + [id])
  {
    hide NextKey, ValidateParent, Siblings, Following, Reachable;
    if id in t && t[id].Live() {
      var next := if hasParent then parent else t[id].parent;
      ValidateParentExact(t, t[id].(parent := next));
      NextKeyFollows(t, t[id].project, next);
      if Move(t, id, hasParent, parent, key, now).Ok? && key.None? && next != t[id].parent {
        var t' := Move(t, id, hasParent, parent, key, now).value;
        Appended(t, t', t'[id]);
      }
    }
  }

  /** Permanent deletion: a trashed card goes, and only that one. */
  lemma Deleted(t: Table, id: Id)
    ensures HardDelete(t, id).Ok? <==> id in t && t[id].deletedAt.Some?
    ensures HardDelete(t, id).Ok? ==>
      var t' := HardDelete(t, id).value;
      t'.Keys == t.Keys - {id} && forall x :: x in t && x != id ==> t'[x] == t[x]
  {
  }

  // ----- restore and promote -----

  /** `d` is the nearest card up the chain from `from` that can be reached from a root without
      meeting the card; no card at all if there is none. */
  ghost predicate NearestOpen(t: Table, project: string, from: Option<Id>, id: Id, d: Option<Id>)
  {
    && Reachable(t, project, d, {id})
    && (d.Some? ==> OnChain(t, project, from, d.value))
    && forall k: nat, x :: Ancestor(t, project, from, k, x) && Reachable(t, project, Some(x), {}) ==>
         d.Some? && ByStep(t, project, from, k, d.value)
  }

  ghost predicate OnChain(t: Table, project: string, from: Option<Id>, x: Id)
  {
    exists k: nat :: Ancestor(t, project, from, k, x)
  }

  ghost predicate ByStep(t: Table, project: string, from: Option<Id>, k: nat, x: Id)
  {
    exists j: nat :: j <= k && Ancestor(t, project, from, j, x)
  }

  lemma {:induction false} FoundOnChain(t: Table, project: string, next: Option<Id>, visited: set<Id>)
    requires WalkUp(t, project, next, visited).Top? && WalkUp(t, project, next, visited).nearest.Some?
    ensures OnChain(t, project, next, WalkUp(t, project, next, visited).nearest.value)
    decreases t.Keys - visited
  {
    var more := visited + {next.value};
    var up, rest := WalkUp(t, project, next, visited), WalkUp(t, project, t[next.value].parent, more);
    if up.nearest == next {
      assert Ancestor(t, project, next, 0, next.value);
    } else {
      FoundOnChain(t, project, t[next.value].parent, more);
      var k: nat :| Ancestor(t, project, t[next.value].parent, k, rest.nearest.value);
      assert Ancestor(t, project, next, k + 1, rest.nearest.value);
    }
  }

  lemma ReachableIsNearest(t: Table, card: Card)
    requires ReachableParent(t, card).Ok?
    ensures NearestOpen(t, card.project, card.parent, card.id, ReachableParent(t, card).value)
  {
    var up := WalkUp(t, card.project, card.parent, {card.id});
    ReachableParentSound(t, card);
    if up.Top? && up.nearest.Some? { FoundOnChain(t, card.project, card.parent, {card.id}); }
    hide WalkUp, Reachable, Ancestor;
    forall k: nat, x | Ancestor(t, card.project, card.parent, k, x) && Reachable(t, card.project, Some(x), {})
      ensures up.Top? && up.nearest.Some? && ByStep(t, card.project, card.parent, k, up.nearest.value)
    {
      NearestFirst(t, card.project, card.parent, {card.id}, k, x);
    }
  }

  /** The walk never reads a row it has visited. */
  lemma {:induction false} WalkIgnores(t: Table, t': Table, project: string, next: Option<Id>, visited: set<Id>, id: Id)
    requires id in visited && t'.Keys == t.Keys && forall x :: x in t && x != id ==> t'[x] == t[x]
    ensures WalkUp(t', project, next, visited) == WalkUp(t, project, next, visited)
    decreases t.Keys - visited
  {
    if next.Some? && next.value !in visited && next.value in t && t[next.value].project == project {
      WalkIgnores(t, t', project, t[next.value].parent, visited + {next.value}, id);
    }
  }

  /** A parent is found unless the card's chain, once the card is in place, runs in a circle. */
  lemma ParentFound(t: Table, card: Card)
    requires card.id in t
    ensures ReachableParent(t, card).Ok? <==> !Loops(t[card.id := card], card.project, Some(card.id))
  {
    var t' := t[card.id := card];
    LoopExact(t', card.id);
    WalkIgnores(t, t', card.project, card.parent, {card.id}, card.id);
  }

  lemma ParentFoundStored(t: Table, id: Id, card: Card)
    requires id in t && card.id == id && card.project == t[id].project && card.parent == t[id].parent
    ensures ReachableParent(t, card).Ok? <==> !Loops(t, card.project, Some(id))
  {
    LoopExact(t, id);
  }

  /** What a restored card comes to: below its nearest open ancestor, with its own key if no other
      child has that key; then its row alone is written. */
  ghost predicate Returned(t: Table, t': Table, card: Card, now: int)
  {
    && card.id in t' && WellKeyed(t')
    && var d := t'[card.id].parent;
       && NearestOpen(t, card.project, card.parent, card.id, d)
       && Restamped(card.(parent := d), t'[card.id], now)
       && OthersKept(t, t', card.project, d, [card.id], now)
       && ((forall x :: x in t && x != card.id && ChildOf(t[x], card.project, d) ==> t[x].key != card.key) ==>
             t'[card.id].key == card.key && OnlyRow(t, t', card.id))
  }

  lemma RestoredReturns(a: Arithmetic, t: Table, card: Card, now: int)
    requires WellKeyed(t) && card.id in t && t[card.id].project == card.project && card.Live() && card.updatedAt == now
    requires RestoredPlacement(a, t, card, now).Ok?
    ensures Returned(t, RestoredPlacement(a, t, card, now).value, card, now)
  {
    assert ReachableParent(t, card).Ok?;
    hide *;
    var d, t' := ReachableParent(t, card).value, RestoredPlacement(a, t, card, now).value;
    ReachableIsNearest(t, card);
    RestoredUnfolds(a, t, card, now, d, t');
    RestoreOrder(a, t, card, now, d, t');
    var placed := card.(parent := d);
    var dest := Without(Siblings(t, card.project, d), card.id);
    KeyTakenMeans(t, placed);
    if KeyTaken(dest, card.key) {
      RestoredBlock(t, placed);
      PlacedBack(a, t, placed, LowerBound(TreeOrder, dest, placed), now);
    } else {
      SavedRow(t, placed, now);
    }
    ReturnedFrom(t, t', card, d, now);
  }

  /** The rows after one card is placed below its parent. */
  lemma PlacedBack(a: Arithmetic, t: Table, card: Card, at: nat, now: int)
    requires WellKeyed(t) && IsBlock(t, card.project, [card])
    requires at <= |Without(Siblings(t, card.project, card.parent), card.id)|
    requires InsertBlock(a, Without(Siblings(t, card.project, card.parent), card.id), at, [card], card.parent, now).Ok?
    ensures var p := InsertBlock(a, Without(Siblings(t, card.project, card.parent), card.id), at, [card], card.parent,
                                 now).value;
      var t' := SaveAll(t, p.changed);
      && card.id in t' && Restamped(card, t'[card.id], now) && t'[card.id].parent == card.parent
      && OthersKept(t, t', card.project, card.parent, [card.id], now)
  {
    hide *;
    var dest := Without(Siblings(t, card.project, card.parent), card.id);
    var p := InsertBlock(a, dest, at, [card], card.parent, now).value;
    OneId(card);
    DestinationFor(t, card.project, card.parent, card);
    DestinationSorted(t, card.project, card.parent, card);
    InsertBlockPlaces(a, dest, at, [card], card.parent, now);
    PlacementEffect(t, card.project, card.parent, dest, at, [card], now, p);
    assert [card][0] == card;
    assert card.(parent := card.parent) == card;
    RestampedParent(card, SaveAll(t, p.changed)[card.id], now);
  }

  lemma KeyTakenMeans(t: Table, card: Card)
    requires WellKeyed(t)
    ensures KeyTaken(Without(Siblings(t, card.project, card.parent), card.id), card.key) <==>
        exists x :: x in t && x != card.id && ChildOf(t[x], card.project, card.parent) && t[x].key == card.key
  {
    hide Sorted, Siblings, Without;
    var dest := Without(Siblings(t, card.project, card.parent), card.id);
    DestinationFor(t, card.project, card.parent, card);
    OneId(card);
    assert forall x :: x in Ids([card]) <==> x == card.id;
    forall x | x in t && x != card.id && ChildOf(t[x], card.project, card.parent)
      ensures t[x] in dest
    {
    }
  }

  lemma SavedRow(t: Table, card: Card, now: int)
    requires WellKeyed(t) && card.id in t && t[card.id].project == card.project && card.updatedAt == now
    ensures Save(t, card)[card.id] == card && OnlyRow(t, Save(t, card), card.id)
    ensures Restamped(card, Save(t, card)[card.id], now)
    ensures OthersKept(t, Save(t, card), card.project, card.parent, [card.id], now)
  {
  }

  lemma ReturnedFrom(t: Table, t': Table, card: Card, d: Option<Id>, now: int)
    requires WellKeyed(t') && card.id in t' && t'[card.id].parent == d
    requires NearestOpen(t, card.project, card.parent, card.id, d)
    requires Restamped(card.(parent := d), t'[card.id], now) && OthersKept(t, t', card.project, d, [card.id], now)
    requires (exists x :: x in t && x != card.id && ChildOf(t[x], card.project, d) && t[x].key == card.key) ||
             (t'[card.id].key == card.key && OnlyRow(t, t', card.id))
    ensures Returned(t, t', card, now)
  {
    hide NearestOpen, OthersKept, OnlyRow, ChildOf, Restamped;
  }

  /** The live children of the card hang below `d`, in their place, and no other card moves. */
  ghost predicate KidsPromoted(t: Table, t': Table, id: Id, d: Option<Id>, now: int)
    requires id in t
  {
    && t'.Keys == t.Keys
    && (forall x :: x in t && x != id && ChildOf(t[x], t[id].project, Some(id)) ==>
          Restamped(t[x].(parent := d), t'[x], now))
    && (forall x :: x in t && x != id && !ChildOf(t[x], t[id].project, Some(id)) ==>
          t'[x] == t[x] || (ChildOf(t[x], t[id].project, d) && Restamped(t[x], t'[x], now)))
  }

  /** Among the children of `d` the card's own children stand together, in their order, where the
      card itself would stand. */
  ghost predicate KidsTogether(t: Table, t': Table, id: Id, d: Option<Id>)
    requires WellKeyed(t) && WellKeyed(t') && id in t
  {
    var dest := Without(Siblings(t, t[id].project, d), id);
    var at := LowerBound(TreeOrder, dest, t[id].(parent := d));
    Ids(Siblings(t', t[id].project, d)) ==
    Ids(dest[..at]) + Ids(Siblings(t, t[id].project, Some(id))) + Ids(dest[at..])
  }

  /** What trashing a card in promote mode comes to: its row becomes `row`, and its live children
      take its place below its nearest open ancestor `d`. */
  ghost predicate Replaced(t: Table, t': Table, id: Id, row: Card, d: Option<Id>, now: int)
    requires WellKeyed(t) && id in t
  {
    && WellKeyed(t') && id in t' && t'[id] == row
    && NearestOpen(t, t[id].project, t[id].parent, id, d)
    && KidsPromoted(t, t', id, d, now) && KidsTogether(t, t', id, d)
  }

  lemma PromotedReplaces(a: Arithmetic, t: Table, id: Id, row: Card, now: int) returns (d: Option<Id>)
    requires WellKeyed(t) && id in t && row.id == id && row.project == t[id].project && !row.Live()
    requires Promoted(a, t, t[id], now).Ok?
    ensures Replaced(t, WriteBack(t, row, Promoted(a, t, t[id], now).value.changed), id, row, d, now)
  {
    assert ReachableParent(t, t[id]).Ok? && t[id].id == id;
    hide *;
    d := ReachableParent(t, t[id]).value;
    var project, p := t[id].project, Promoted(a, t, t[id], now).value;
    var kids, dest := Siblings(t, project, Some(id)), Without(Siblings(t, project, d), id);
    var at, t1 := LowerBound(TreeOrder, dest, t[id].(parent := d)), t[id := row];
    ReachableIsNearest(t, t[id]);
    ReachableParentSound(t, t[id]);
    PromotionRows(a, t, id, row, now, d, p);
    PromotedUnfolds(a, t, id, row, now, d, p);
    DestinationSorted(t, project, d, t[id]);
    TrashedWellKeyed(t, id, row);
    PromotionBlock(t, t1, id, d);
    InsertBlockPlaces(a, dest, at, kids, d, now);
    PlacementEffect(t1, project, d, dest, at, kids, now, p);
    KidsFrom(t, t1, WriteBack(t, row, p.changed), id, d, now);
    TogetherFrom(t, WriteBack(t, row, p.changed), id, d);
    ReplacedFrom(t, WriteBack(t, row, p.changed), id, row, d, now);
  }

  lemma ReplacedFrom(t: Table, t': Table, id: Id, row: Card, d: Option<Id>, now: int)
    requires WellKeyed(t) && id in t && WellKeyed(t') && id in t' && t'[id] == row
    requires NearestOpen(t, t[id].project, t[id].parent, id, d)
    requires KidsPromoted(t, t', id, d, now) && KidsTogether(t, t', id, d)
    ensures Replaced(t, t', id, row, d, now)
  {
    hide NearestOpen, KidsPromoted, KidsTogether, WellKeyed;
  }

  lemma TogetherFrom(t: Table, t': Table, id: Id, d: Option<Id>)
    requires WellKeyed(t) && id in t && WellKeyed(t')
    requires var dest := Without(Siblings(t, t[id].project, d), id);
      var at := LowerBound(TreeOrder, dest, t[id].(parent := d));
      Ids(Siblings(t', t[id].project, d)) ==
      Ids(dest[..at]) + Ids(Siblings(t, t[id].project, Some(id))) + Ids(dest[at..])
    ensures KidsTogether(t, t', id, d)
  {
    hide Siblings, Without, LowerBound, WellKeyed;
  }

  lemma KidsFrom(t: Table, t1: Table, t': Table, id: Id, d: Option<Id>, now: int)
    requires WellKeyed(t) && id in t && id in t1 && t1 == t[id := t1[id]] && t'.Keys == t.Keys
    requires id !in Ids(Siblings(t, t[id].project, Some(id)))
    requires OthersKept(t1, t', t[id].project, d, Ids(Siblings(t, t[id].project, Some(id))), now)
    requires var kids := Siblings(t, t[id].project, Some(id));
      forall j :: 0 <= j < |kids| ==> kids[j].id in t' && Restamped(kids[j].(parent := d), t'[kids[j].id], now)
    ensures KidsPromoted(t, t', id, d, now)
  {
    hide Siblings, Restamped, ChildOf, OthersKept, WellKeyed;
    KidsStamped(t, t', id, d, now);
    OthersStay(t, t1, t', id, d, now);
  }

  lemma KidsStamped(t: Table, t': Table, id: Id, d: Option<Id>, now: int)
    requires WellKeyed(t) && id in t && t'.Keys == t.Keys
    requires var kids := Siblings(t, t[id].project, Some(id));
      forall j :: 0 <= j < |kids| ==> kids[j].id in t' && Restamped(kids[j].(parent := d), t'[kids[j].id], now)
    ensures forall x :: x in t && ChildOf(t[x], t[id].project, Some(id)) ==> Restamped(t[x].(parent := d), t'[x], now)
  {
    hide Siblings, Restamped;
    SiblingsMember(t, t[id].project, Some(id));
    forall x | x in t && ChildOf(t[x], t[id].project, Some(id))
      ensures Restamped(t[x].(parent := d), t'[x], now)
    {
      assert t[x] in Siblings(t, t[id].project, Some(id));
    }
  }

  lemma OthersStay(t: Table, t1: Table, t': Table, id: Id, d: Option<Id>, now: int)
    requires WellKeyed(t) && id in t && t1.Keys == t.Keys && forall x :: x in t && x != id ==> t1[x] == t[x]
    requires OthersKept(t1, t', t[id].project, d, Ids(Siblings(t, t[id].project, Some(id))), now)
    ensures t'.Keys == t.Keys
    ensures forall x :: x in t && x != id && !ChildOf(t[x], t[id].project, Some(id)) ==>
      t'[x] == t[x] || (ChildOf(t[x], t[id].project, d) && Restamped(t[x], t'[x], now))
  {
    hide Siblings, Restamped, ChildOf;
    forall x | x in t && x in Ids(Siblings(t, t[id].project, Some(id)))
      ensures ChildOf(t[x], t[id].project, Some(id))
    {
      KidRow(t, t[id].project, id, x);
    }
  }

  lemma PromotionAccepted(a: Arithmetic, t: Table, id: Id, now: int)
    requires WellKeyed(t) && id in t && Roomy(a)
    ensures Promoted(a, t, t[id], now).Ok? <==> !Loops(t, t[id].project, Some(id))
  {
    ParentFoundStored(t, id, t[id]);
    hide Loops, InsertBlock, Siblings, Without, LowerBound, ReachableParent, Roomy;
    var d := ReachableParent(t, t[id]);
    if d.Ok? {
      var dest := Without(Siblings(t, t[id].project, d.value), id);
      RoomyPlaces(a, dest, LowerBound(TreeOrder, dest, t[id].(parent := d.value)),
                  Siblings(t, t[id].project, Some(id)), d.value, now);
    }
  }

  lemma PlacementAccepted(a: Arithmetic, t: Table, card: Card, now: int)
    requires WellKeyed(t) && Roomy(a)
    ensures RestoredPlacement(a, t, card, now).Ok? <==> ReachableParent(t, card).Ok?
  {
    hide InsertBlock, Siblings, Without, LowerBound, ReachableParent, Roomy;
    var d := ReachableParent(t, card);
    if d.Ok? {
      var placed := card.(parent := d.value);
      var dest := Without(Siblings(t, card.project, d.value), card.id);
      RoomyPlaces(a, dest, LowerBound(TreeOrder, dest, placed), [placed], d.value, now);
    }
  }

  /** Trash, promote mode: a live card whose chain ends. */
  lemma TrashReplaces(a: Arithmetic, t: Table, id: Id, now: int) returns (d: Option<Id>)
    requires WellKeyed(t)
    ensures Roomy(a) ==> (TrashPromote(a, t, id, now).Ok? <==>
      (id in t && t[id].deletedAt.None? && !Loops(t, t[id].project, Some(id))))
    ensures TrashPromote(a, t, id, now).Ok? ==>
      && id in t && t[id].deletedAt.None?
      && Replaced(t, TrashPromote(a, t, id, now).value, id, t[id].(deletedAt := Some(now), updatedAt := now), d, now)
  {
    d := None;
    hide Promoted, Replaced, Loops, WriteBack, Roomy;
    if id in t && t[id].Live() {
      var row := t[id].(deletedAt := Some(now), updatedAt := now);
      if Roomy(a) { PromotionAccepted(a, t, id, now); }
      if Promoted(a, t, t[id], now).Ok? { d := PromotedReplaces(a, t, id, row, now); }
    }
  }

  /** Restore: a trashed card whose chain ends comes back, live and stamped. */
  lemma RestoreReturns(a: Arithmetic, t: Table, id: Id, now: int)
    requires WellKeyed(t)
    ensures Roomy(a) ==> (Restore(a, t, id, now).Ok? <==>
      (id in t && t[id].deletedAt.Some? && !Loops(t, t[id].project, Some(id))))
    ensures Restore(a, t, id, now).Ok? ==>
      && id in t && t[id].deletedAt.Some?
      && Returned(t, Restore(a, t, id, now).value, t[id].(deletedAt := None, updatedAt := now), now)
  {
    hide RestoredPlacement, Returned, Loops, Roomy;
    if id in t && !t[id].Live() {
      var card := t[id].(deletedAt := None, updatedAt := now);
      ParentFoundStored(t, id, card);
      if Roomy(a) { PlacementAccepted(a, t, card, now); }
      if RestoredPlacement(a, t, card, now).Ok? { RestoredReturns(a, t, card, now); }
    }
  }

  /** Restoring a version: the row takes the historical title, parent and key. A version found live
      comes back like a restored card, whatever the card is now; one found in Trash takes the card
      to Trash, with its children promoted from where it is now. */
  lemma VersionReturns(a: Arithmetic, t: Table, id: Id, h: Historical, now: int) returns (d: Option<Id>)
    requires WellKeyed(t)
    ensures id !in t || h.Unreadable? ==> RestoreVersion(a, t, id, h, now).Err?
    ensures id in t && h.Version? && h.inTrash ==>
      && (Roomy(a) ==> (RestoreVersion(a, t, id, h, now).Ok? <==> !Loops(t, t[id].project, Some(id))))
      && (RestoreVersion(a, t, id, h, now).Ok? ==>
            Replaced(t, RestoreVersion(a, t, id, h, now).value, id,
                     Card(id, t[id].project, h.title, h.parent, h.key, now, Some(now)), d, now))
    ensures id in t && h.Version? && !h.inTrash ==>
      var card := Card(id, t[id].project, h.title, h.parent, h.key, now, None);
      && (Roomy(a) ==> (RestoreVersion(a, t, id, h, now).Ok? <==> !Loops(t[id := card], t[id].project, Some(id))))
      && (RestoreVersion(a, t, id, h, now).Ok? ==> Returned(t, RestoreVersion(a, t, id, h, now).value, card, now))
  {
    hide RestoredPlacement, Promoted, WriteBack, Returned, Replaced, Loops, Roomy;
    d := None;
    if id in t && h.Version? {
      var card := Card(id, t[id].project, h.title, h.parent, h.key, now, if h.inTrash then Some(now) else None);
      if h.inTrash {
        if Roomy(a) { PromotionAccepted(a, t, id, now); }
        if Promoted(a, t, t[id], now).Ok? { d := PromotedReplaces(a, t, id, card, now); }
      } else {
        ParentFound(t, card);
        if Roomy(a) { PlacementAccepted(a, t, card, now); }
        if RestoredPlacement(a, t, card, now).Ok? { RestoredReturns(a, t, card, now); }
      }
    }
  }
}

/** When repair puts every branch back where it was: exactly which inputs make it give other keys
    to cards that stay. */
module RepairExact {
  import opened Common
  import opened Cards
  import opened Ancestry
  import opened Placement
  import opened Intents
  import opened Repair

  // ----- one insertion -----

  /** The insertion point is between two cards with the same key. */
  predicate TieAt(list: seq<Card>, at: nat)
  {
    0 < at < |list| && list[at - 1].key == list[at].key
  }

  /** The anchor stands between two cards with the same key. */
  ghost predicate TiedList(list: seq<Card>, anchor: Card)
  {
    exists i, j :: 0 <= i < |list| && 0 <= j < |list| && TiedPair(list[i], list[j], anchor)
  }

  predicate TiedPair(p: Card, q: Card, anchor: Card)
  {
    p.key == q.key && TreeLess(p, anchor) && !TreeLess(q, anchor)
  }

  ghost predicate LoneAt(list: seq<Card>, i: nat)
    requires i < |list|
  {
    forall j :: 0 <= j < |list| && j != i ==> list[j].key != list[i].key
  }

  /** The cards of `first` are all there with their rows, and whoever has come has a key of its
      own. */
  ghost predicate Clean(first: seq<Card>, list: seq<Card>)
  {
    && Sorted(TreeOrder, list)
    && (forall i :: 0 <= i < |list| ==> list[i] in first || LoneAt(list, i))
    && (forall o :: o in first ==> o in list)
  }

  lemma KeysAscend(list: seq<Card>, i: nat, j: nat)
    requires Sorted(TreeOrder, list) && i <= j < |list|
    ensures list[i].key <= list[j].key
  {
    if i < j { assert Less(TreeOrder, list[i], list[j]); }
  }

  lemma LowerBoundSplits(list: seq<Card>, anchor: Card, k: nat)
    requires Sorted(TreeOrder, list) && k < |list|
    ensures TreeLess(list[k], anchor) <==> k < LowerBound(TreeOrder, list, anchor)
  {
    hide TreeLess;
    var at := LowerBound(TreeOrder, list, anchor);
    assert Less(TreeOrder, list[k], anchor) <==> TreeLess(list[k], anchor);
    if at < k && Less(TreeOrder, list[k], anchor) { LessTransitive(TreeOrder, list[at], list[k], anchor); }
  }

  /** A tie at the insertion point is a tie in the input. */
  lemma TieMeans(first: seq<Card>, list: seq<Card>, anchor: Card)
    requires Clean(first, list)
    ensures TieAt(list, LowerBound(TreeOrder, list, anchor)) <==> TiedList(first, anchor)
  {
    hide TreeLess, Sorted, LowerBound;
    var at := LowerBound(TreeOrder, list, anchor);
    if TieAt(list, at) {
      assert list[at - 1] in first && list[at] in first;
      var i :| 0 <= i < |first| && first[i] == list[at - 1];
      var j :| 0 <= j < |first| && first[j] == list[at];
      LowerBoundSplits(list, anchor, at - 1);
      LowerBoundSplits(list, anchor, at);
      assert TiedPair(first[i], first[j], anchor);
    }
    if i, j :| 0 <= i < |first| && 0 <= j < |first| && TiedPair(first[i], first[j], anchor) {
      assert first[i] in first && first[j] in first;
      var k :| 0 <= k < |list| && list[k] == first[i];
      var l :| 0 <= l < |list| && list[l] == first[j];
      LowerBoundSplits(list, anchor, k);
      LowerBoundSplits(list, anchor, l);
      KeysAscend(list, k, at - 1);
      KeysAscend(list, at - 1, at);
      KeysAscend(list, at, l);
    }
  }

  ghost predicate Meets(first: seq<Card>, written: set<Id>)
  {
    exists o :: o in first && o.id in written
  }

  /** Between two different keys the block fits without moving anybody. */
  lemma StepClean(a: Arithmetic, now: int, d: Option<Id>, first: seq<Card>, list: seq<Card>, at: nat, cards: seq<Card>,
                  p: Placed)
    requires Roomy(a) && Clean(first, list) && at <= |list| && !TieAt(list, at)
    requires InsertBlock(a, list, at, cards, d, now) == Ok(p)
    requires forall c :: c in cards ==> forall o :: o in first ==> o.id != c.id
    ensures Clean(first, p.list) && !Meets(first, IdSet(p.changed))
  {
    hide *;
    CleanSorted(first, list);
    InsertBlockPlaces(a, list, at, cards, d, now);
    RowsStay(a, now, d, list, at, cards, p);
    CleanAfter(first, list, at, cards, d, now, p);
    BlockOnly(first, list, at, cards, d, now, p);
  }

  lemma CleanSorted(first: seq<Card>, list: seq<Card>)
    requires Clean(first, list)
    ensures Sorted(TreeOrder, list)
  {
    hide Sorted, LoneAt;
  }

  lemma RowsStay(a: Arithmetic, now: int, d: Option<Id>, list: seq<Card>, at: nat, cards: seq<Card>, p: Placed)
    requires Roomy(a) && Sorted(TreeOrder, list) && at <= |list| && !TieAt(list, at)
    requires InsertBlock(a, list, at, cards, d, now) == Ok(p) && |p.list| == |list| + |cards|
    ensures forall i :: 0 <= i < at ==> p.list[i] == list[i]
    ensures forall i :: at <= i < |list| ==> p.list[i + |cards|] == list[i]
  {
    hide Roomy, WindowKeys, Widen, Sorted, Spliced;
    if cards != [] {
      var s, end := Spliced(list, at, cards, d), at + |cards|;
      Fits0(a, list, at, cards, d);
      NeighboursApart(a, s, at, end, now, p);
      forall i | 0 <= i < at
        ensures p.list[i] == list[i]
      {
        SplicedPosition(list, at, cards, d, i);
      }
      forall i | at <= i < |list|
        ensures p.list[i + |cards|] == list[i]
      {
        SplicedPosition(list, at, cards, d, i + |cards|);
      }
    }
  }

  lemma Fits0(a: Arithmetic, list: seq<Card>, at: nat, cards: seq<Card>, d: Option<Id>)
    requires Roomy(a) && Sorted(TreeOrder, list) && at <= |list| && !TieAt(list, at)
    ensures WindowKeys(a, Spliced(list, at, cards, d), at, at + |cards|, 0).Some?
  {
    hide SpacedKeys;
    var s, end := Spliced(list, at, cards, d), at + |cards|;
    assert WindowLow(at, 0) == at && WindowHigh(|s|, end, 0) == end;
    if 0 < at < |list| {
      KeysAscend(list, at - 1, at);
      assert s[at - 1] == list[at - 1] && s[end] == list[at];
    }
    var left, right := LeftKey(s, at), RightKey(s, end);
    assert left.None? || right.None? || left.value < right.value;
    assert SpacedKeys(a, left, right, |cards|).Some?;
  }

  lemma CleanAfter(first: seq<Card>, list: seq<Card>, at: nat, cards: seq<Card>, d: Option<Id>, now: int, p: Placed)
    requires Clean(first, list) && at <= |list| && |p.list| == |list| + |cards| && Sorted(TreeOrder, p.list)
    requires Separated(p.list, at, at + |cards|)
    requires forall i :: 0 <= i < at ==> p.list[i] == list[i]
    requires forall i :: at <= i < |list| ==> p.list[i + |cards|] == list[i]
    ensures Clean(first, p.list)
  {
    hide Sorted;
    var n := |cards|;
    forall i | 0 <= i < |p.list|
      ensures p.list[i] in first || LoneAt(p.list, i)
    {
      if at <= i < at + n {
        assert LoneAt(p.list, i);
      } else {
        var k := if i < at then i else i - n;
        assert p.list[i] == list[k];
        if list[k] !in first {
          assert LoneAt(list, k);
          forall j | 0 <= j < |p.list| && j != i
            ensures p.list[j].key != p.list[i].key
          {
            if !(at <= j < at + n) {
              var l := if j < at then j else j - n;
              assert p.list[j] == list[l] && l != k;
            }
          }
        }
      }
    }
    forall o | o in first
      ensures o in p.list
    {
      var k :| 0 <= k < |list| && list[k] == o by { assert o in list; }
      assert p.list[if k < at then k else k + n] == o;
    }
  }

  lemma BlockOnly(first: seq<Card>, list: seq<Card>, at: nat, cards: seq<Card>, d: Option<Id>, now: int, p: Placed)
    requires at <= |list| && IsPlacement(Spliced(list, at, cards, d), at, at + |cards|, now, p)
    requires |p.list| == |list| + |cards|
    requires forall i :: 0 <= i < at ==> p.list[i] == list[i]
    requires forall i :: at <= i < |list| ==> p.list[i + |cards|] == list[i]
    requires forall c :: c in cards ==> forall o :: o in first ==> o.id != c.id
    ensures !Meets(first, IdSet(p.changed))
  {
    hide Spliced;
    var s := Spliced(list, at, cards, d);
    forall c | c in p.changed
      ensures exists b :: b in cards && b.id == c.id
    {
      assert Touched(s, at, at + |cards|, p.list, c);
      var i :| 0 <= i < |p.list| && p.list[i] == c && (at <= i < at + |cards| || p.list[i] != s[i]);
      SplicedPosition(list, at, cards, d, i);
      assert SameBut(s[i], p.list[i], now, at <= i < at + |cards|);
      assert cards[i - at] in cards && cards[i - at].id == c.id;
    }
  }

  /** Between two equal keys somebody has to move. */
  lemma StepDirty(a: Arithmetic, now: int, d: Option<Id>, first: seq<Card>, list: seq<Card>, at: nat, cards: seq<Card>,
                  p: Placed)
    requires Clean(first, list) && at <= |list| && TieAt(list, at) && cards != []
    requires InsertBlock(a, list, at, cards, d, now) == Ok(p)
    ensures Meets(first, IdSet(p.changed))
  {
    hide *;
    CleanSorted(first, list);
    TiedAreFirst(first, list, at);
    var s, n := Spliced(list, at, cards, d), |cards|;
    InsertBlockPlaces(a, list, at, cards, d, now);
    SplicedPosition(list, at, cards, d, at - 1);
    SplicedPosition(list, at, cards, d, at + n);
    var i := OneMoves(s, at, at + n, now, p);
    InIdSet(p.changed, p.list[i]);
    MeetsIf(first, IdSet(p.changed), s[i]);
  }

  lemma InIdSet(cs: seq<Card>, c: Card)
    requires c in cs
    ensures c.id in IdSet(cs)
  {
  }

  lemma MeetsIf(first: seq<Card>, written: set<Id>, o: Card)
    requires o in first && o.id in written
    ensures Meets(first, written)
  {
  }

  lemma OneMoves(s: seq<Card>, at: nat, end: nat, now: int, p: Placed) returns (i: nat)
    requires IsPlacement(s, at, end, now, p) && Separated(p.list, at, end)
    requires 0 < at < end < |s| && s[at - 1].key == s[end].key
    ensures (i == at - 1 || i == end) && i < |p.list| && p.list[i] in p.changed && p.list[i].id == s[i].id
  {
    hide Touched;
    assert p.list[at - 1].key < p.list[at].key < p.list[end].key;
    i := if p.list[at - 1] != s[at - 1] then at - 1 else end;
    assert p.list[i] != s[i];
    assert SameBut(s[i], p.list[i], now, at <= i < end);
  }

  lemma TiedAreFirst(first: seq<Card>, list: seq<Card>, at: nat)
    requires Clean(first, list) && TieAt(list, at)
    ensures 0 < at < |list| && list[at - 1].key == list[at].key && list[at - 1] in first && list[at] in first
  {
    hide Sorted;
    assert !LoneAt(list, at) && !LoneAt(list, at - 1);
  }

  // ----- all insertions of one destination -----

  ghost predicate TiedBlocks(first: seq<Card>, blocks: seq<Block>)
  {
    exists i :: 0 <= i < |blocks| && TiedBlock(first, blocks[i])
  }

  ghost predicate TiedBlock(first: seq<Card>, b: Block)
  {
    b.anchor.Some? && TiedList(first, b.anchor.value)
  }

  /** Blocks of newcomers, none of the anchored ones empty. */
  ghost predicate Newcomers(first: seq<Card>, blocks: seq<Block>)
  {
    forall i :: 0 <= i < |blocks| ==> NewBlock(first, blocks[i])
  }

  ghost predicate NewBlock(first: seq<Card>, b: Block)
  {
    (b.anchor.Some? ==> b.cards != []) && forall c :: c in b.cards ==> forall o :: o in first ==> o.id != c.id
  }

  /** Rows of cards that were there are rewritten exactly when some anchor stands between two of
      them with the same key. */
  lemma {:induction false} ArrangeExact(a: Arithmetic, now: int, d: Option<Id>, first: seq<Card>, blocks: seq<Block>,
                                        done: Arranged)
    requires Roomy(a) && Sorted(TreeOrder, first) && Newcomers(first, blocks)
    requires Arrange(a, now, d, first, blocks) == Ok(done)
    ensures Meets(first, done.written) <==> TiedBlocks(first, blocks)
    ensures !Meets(first, done.written) ==> Clean(first, done.list)
    decreases |blocks|
  {
    hide *;
    if blocks == [] {
      ArrangeNext(a, now, d, first, [], Block(None, []));
      NothingArranged(first);
    } else {
      var b, front := blocks[|blocks| - 1], blocks[..|blocks| - 1];
      assert blocks == front + [b];
      NewcomersFront(first, front, b);
      var before, p := ArrangeLast(a, now, d, first, front, b, done);
      ArrangeExact(a, now, d, first, front, before);
      TiedMore(first, front, b);
      MeetsMore(first, before.written, IdSet(p.changed));
      if !Meets(first, before.written) {
        var at := PlaceFor(before.list, b.anchor);
        PlaceForIs(before.list, b.anchor);
        TiedPlace(first, before.list, b);
        NewBlockIs(first, b);
        if TieAt(before.list, at) {
          StepDirty(a, now, d, first, before.list, at, b.cards, p);
        } else {
          StepClean(a, now, d, first, before.list, at, b.cards, p);
        }
      }
    }
  }

  lemma NothingArranged(first: seq<Card>)
    requires Sorted(TreeOrder, first)
    ensures !Meets(first, {}) && !TiedBlocks(first, []) && Clean(first, first)
  {
    hide Sorted;
  }

  lemma NewcomersFront(first: seq<Card>, front: seq<Block>, b: Block)
    requires Newcomers(first, front + [b])
    ensures Newcomers(first, front) && NewBlock(first, b)
  {
    hide NewBlock;
    var blocks := front + [b];
    assert forall i :: 0 <= i < |front| ==> blocks[i] == front[i];
    assert blocks[|front|] == b;
  }

  lemma NewBlockIs(first: seq<Card>, b: Block)
    requires NewBlock(first, b)
    ensures b.anchor.Some? ==> b.cards != []
    ensures forall c :: c in b.cards ==> forall o :: o in first ==> o.id != c.id
  {
  }

  lemma ArrangeLast(a: Arithmetic, now: int, d: Option<Id>, first: seq<Card>, front: seq<Block>, b: Block,
                    done: Arranged)
    returns (before: Arranged, p: Placed)
    requires Arrange(a, now, d, first, front + [b]) == Ok(done)
    ensures Arrange(a, now, d, first, front) == Ok(before)
    ensures InsertBlock(a, before.list, PlaceFor(before.list, b.anchor), b.cards, d, now) == Ok(p)
    ensures done == Arranged(p.list, before.written + IdSet(p.changed))
  {
    hide InsertBlock, PlaceFor, IdSet;
    assert (front + [b])[..|front|] == front;
    before := Arrange(a, now, d, first, front).value;
    p := InsertBlock(a, before.list, PlaceFor(before.list, b.anchor), b.cards, d, now).value;
  }

  lemma TiedMore(first: seq<Card>, front: seq<Block>, b: Block)
    ensures TiedBlocks(first, front + [b]) <==> TiedBlocks(first, front) || TiedBlock(first, b)
  {
    hide TiedBlock;
    var blocks := front + [b];
    if i :| 0 <= i < |front| && TiedBlock(first, front[i]) { assert TiedBlock(first, blocks[i]); }
    if TiedBlock(first, b) { assert TiedBlock(first, blocks[|front|]); }
  }

  lemma MeetsMore(first: seq<Card>, written: set<Id>, more: set<Id>)
    ensures Meets(first, written + more) <==> Meets(first, written) || Meets(first, more)
  {
  }

  lemma TiedPlace(first: seq<Card>, list: seq<Card>, b: Block)
    requires Clean(first, list)
    ensures TieAt(list, PlaceFor(list, b.anchor)) <==> TiedBlock(first, b)
    ensures TieAt(list, PlaceFor(list, b.anchor)) ==> b.anchor.Some?
  {
    hide TiedList, Clean, LowerBound;
    if b.anchor.Some? { TieMeans(first, list, b.anchor.value); }
  }

  // ----- the planner -----

  /** An anchor of a head to `d` stands between two staying cards with the same key. */
  ghost predicate Tied(t: Table, project: string, d: Option<Id>)
  {
    exists x, p, q :: TiedBy(t, project, d, x, p, q)
  }

  ghost predicate TiedBy(t: Table, project: string, d: Option<Id>, x: Id, p: Id, q: Id)
  {
    && HeadTo(t, project, d, x) && StaysBelow(t, project, d, p) && StaysBelow(t, project, d, q)
    && Anchor(t, project, x).Some? && TiedPair(t[p], t[q], Anchor(t, project, x).value)
  }

  /** The plan gives another key to a card that stays below `d`. */
  ghost predicate Disturbs(t: Table, project: string, plan: Plan, d: Option<Id>)
  {
    exists y :: StaysBelow(t, project, d, y) && y in IdSet(plan.placements)
  }

  /** Repair rewrites a card that stays exactly when an anchor stands between two staying cards
      with the same key: something to be seen in the table before the repair. */
  lemma DisturbsExactly(a: Arithmetic, t: Table, project: string, now: int, plan: Plan, d: Option<Id>)
    requires WellKeyed(t) && Roomy(a) && IsRepair(t, project, now, plan) && Computes(a, t, project, now, plan)
    ensures Disturbs(t, project, plan, d) <==> Tied(t, project, d)
  {
    hide *;
    if d in Destinations(t, project) {
      DestinationDisturbs(a, t, project, now, plan, d);
    } else {
      NoHeadsNoTie(t, project, d);
      NothingBelow(a, t, project, now, plan, d);
    }
  }

  lemma NoHeadsNoTie(t: Table, project: string, d: Option<Id>)
    requires d !in Destinations(t, project)
    ensures !Tied(t, project, d)
  {
    hide IsHead, Destination, Anchor, StaysBelow, TiedPair;
    forall x
      ensures !HeadTo(t, project, d, x)
    {
      assert HeadTo(t, project, d, x) ==> x in Heads(t, project);
    }
  }

  lemma NothingBelow(a: Arithmetic, t: Table, project: string, now: int, plan: Plan, d: Option<Id>)
    requires WellKeyed(t) && IsRepair(t, project, now, plan) && Computes(a, t, project, now, plan)
    requires d !in Destinations(t, project)
    ensures !Disturbs(t, project, plan, d)
  {
    hide IsHead, Destination, Destinations, GroupComputes, InPlace;
    forall c | c in plan.placements
      ensures !StaysBelow(t, project, d, c.id)
    {
      assert RepairedRow(t, project, now, c) && c.parent in Destinations(t, project);
    }
  }

  lemma DestinationDisturbs(a: Arithmetic, t: Table, project: string, now: int, plan: Plan, d: Option<Id>)
    requires WellKeyed(t) && Roomy(a) && Computes(a, t, project, now, plan) && d in Destinations(t, project)
    ensures Disturbs(t, project, plan, d) <==> Tied(t, project, d)
  {
    hide *;
    var rows := ById(plan.placements);
    ComputesAt(a, t, project, now, plan, d);
    var blocks, done := ComputedBy(a, t, project, now, d, rows);
    var first := Siblings(t, project, d);
    DestinationOpen(t, project, d);
    BlocksAreNew(t, project, d, blocks);
    SortedSiblings(t, project, d);
    ArrangeExact(a, now, d, first, blocks, done);
    MeetsDisturbs(t, project, plan, d, done.written);
    TiedIsTied(t, project, d, blocks);
  }

  lemma ComputesAt(a: Arithmetic, t: Table, project: string, now: int, plan: Plan, d: Option<Id>)
    requires WellKeyed(t) && Computes(a, t, project, now, plan) && d in Destinations(t, project)
    ensures GroupComputes(a, t, project, now, d, ById(plan.placements))
  {
    hide GroupComputes, ById, Destinations;
  }

  lemma ComputedBy(a: Arithmetic, t: Table, project: string, now: int, d: Option<Id>, rows: map<Id, Card>)
    returns (blocks: seq<Block>, done: Arranged)
    requires WellKeyed(t) && GroupComputes(a, t, project, now, d, rows)
    ensures GroupComputed(a, t, project, now, d, rows, blocks, done)
    ensures BlocksOf(t, project, HeadsTo(t, project, d), blocks)
    ensures Arrange(a, now, d, Siblings(t, project, d), blocks) == Ok(done)
    ensures forall c :: c in done.list ==> IsBelow(t, project, d, c.id) && c.id in t && c == Row(t, rows, c.id)
    ensures forall x :: IsBelow(t, project, d, x) ==> (x in done.written <==> x in rows)
  {
    hide BlocksOf, Arrange, Siblings, IsBelow, HeadsTo, Row;
    blocks, done :| GroupComputed(a, t, project, now, d, rows, blocks, done);
  }

  lemma DestinationOpen(t: Table, project: string, d: Option<Id>)
    requires WellKeyed(t) && d in Destinations(t, project)
    ensures d.None? || LiveIn(t, project, d.value)
  {
    hide IsHead, Destination;
    var x :| x in Heads(t, project) && Destination(t, x) == d;
    DestinationLive(t, project, x);
  }

  lemma SortedSiblings(t: Table, project: string, d: Option<Id>)
    requires WellKeyed(t)
    ensures Sorted(TreeOrder, Siblings(t, project, d))
  {
  }

  /** The cards that stay below an open destination are its children. */
  lemma SiblingStays(t: Table, project: string, d: Option<Id>, y: Id)
    requires WellKeyed(t) && (d.None? || LiveIn(t, project, d.value))
    ensures StaysBelow(t, project, d, y) <==> y in t && t[y] in Siblings(t, project, d)
    ensures StaysBelow(t, project, d, y) ==> t[y].id == y
  {
    hide Siblings, IsHead;
    SiblingsMember(t, project, d);
    if y in t && t[y].parent == d { ChildOfLiveIsNoHead(t, project, d, y); }
  }

  lemma BlocksAreNew(t: Table, project: string, d: Option<Id>, blocks: seq<Block>)
    requires WellKeyed(t) && (d.None? || LiveIn(t, project, d.value))
    requires BlocksOf(t, project, HeadsTo(t, project, d), blocks)
    ensures Newcomers(Siblings(t, project, d), blocks)
  {
    hide Siblings, HeadTo, Anchor, Sorted, StaysBelow;
    var first, last := Siblings(t, project, d), |blocks| - 1;
    SiblingsMember(t, project, d);
    forall i | 0 <= i < |blocks|
      ensures NewBlock(first, blocks[i])
    {
      assert i < last ==> blocks[..last][i] == blocks[i];
      forall c, o | c in blocks[i].cards && o in first
        ensures o.id != c.id
      {
        assert HeadTo(t, project, d, c.id);
        HeadMoves(t, project, d, d, c.id);
        SiblingStays(t, project, d, o.id);
      }
    }
  }

  lemma MeetsDisturbs(t: Table, project: string, plan: Plan, d: Option<Id>, written: set<Id>)
    requires WellKeyed(t) && (d.None? || LiveIn(t, project, d.value))
    requires forall x :: IsBelow(t, project, d, x) ==> (x in written <==> x in ById(plan.placements))
    ensures Meets(Siblings(t, project, d), written) <==> Disturbs(t, project, plan, d)
  {
    hide Siblings, StaysBelow, HeadTo, ById;
    ByIdKeys(plan.placements);
    SiblingsMember(t, project, d);
    var first := Siblings(t, project, d);
    if o :| o in first && o.id in written {
      SiblingStays(t, project, d, o.id);
      assert o.id in ById(plan.placements).Keys;
    }
    if y :| StaysBelow(t, project, d, y) && y in IdSet(plan.placements) {
      SiblingStays(t, project, d, y);
      assert y in ById(plan.placements).Keys;
      assert t[y] in first && t[y].id in written;
    }
  }

  lemma TiedIsTied(t: Table, project: string, d: Option<Id>, blocks: seq<Block>)
    requires WellKeyed(t) && (d.None? || LiveIn(t, project, d.value))
    requires BlocksOf(t, project, HeadsTo(t, project, d), blocks)
    ensures TiedBlocks(Siblings(t, project, d), blocks) <==> Tied(t, project, d)
  {
    hide *;
    var first := Siblings(t, project, d);
    if TiedBlocks(first, blocks) {
      var b, p, q := TiedCards(first, blocks);
      var x := HeadOfBlock(t, project, d, blocks, b);
      StoredSibling(t, project, d, p);
      StoredSibling(t, project, d, q);
      TiedByIs(t, project, d, x, p.id, q.id);
    }
    if Tied(t, project, d) {
      var x, p, q := TiedIds(t, project, d);
      SiblingStays(t, project, d, p);
      SiblingStays(t, project, d, q);
      var i := BlockOfHead(t, project, d, blocks, x);
      TiedBlocksIf(first, blocks, i, t[p], t[q]);
    }
  }

  lemma TiedCards(first: seq<Card>, blocks: seq<Block>) returns (b: nat, p: Card, q: Card)
    requires TiedBlocks(first, blocks)
    ensures b < |blocks| && blocks[b].anchor.Some? && p in first && q in first && TiedPair(p, q, blocks[b].anchor.value)
  {
    hide TiedPair;
    b :| 0 <= b < |blocks| && TiedBlock(first, blocks[b]);
    var i, j :| 0 <= i < |first| && 0 <= j < |first| && TiedPair(first[i], first[j], blocks[b].anchor.value);
    p, q := first[i], first[j];
  }

  lemma TiedBlocksIf(first: seq<Card>, blocks: seq<Block>, b: nat, p: Card, q: Card)
    requires b < |blocks| && blocks[b].anchor.Some? && p in first && q in first
    requires TiedPair(p, q, blocks[b].anchor.value)
    ensures TiedBlocks(first, blocks)
  {
    hide TiedPair;
    var i :| 0 <= i < |first| && first[i] == p;
    var j :| 0 <= j < |first| && first[j] == q;
    assert TiedBlock(first, blocks[b]);
  }

  /** Every anchored block has a head. */
  lemma HeadOfBlock(t: Table, project: string, d: Option<Id>, blocks: seq<Block>, b: nat) returns (x: Id)
    requires BlocksOf(t, project, HeadsTo(t, project, d), blocks) && b < |blocks| && blocks[b].anchor.Some?
    ensures x in t && HeadTo(t, project, d, x) && Anchor(t, project, x) == blocks[b].anchor
  {
    hide HeadTo, Anchor, Sorted;
    var last := |blocks| - 1;
    assert blocks[..last][b] == blocks[b];
    var c := blocks[b].cards[0];
    assert c in blocks[b].cards;
    assert OfBlock(t, project, WithAnchor(t, project, HeadsTo(t, project, d)), blocks[b].anchor, c);
    x := c.id;
  }

  /** Every anchored head has a block. */
  lemma BlockOfHead(t: Table, project: string, d: Option<Id>, blocks: seq<Block>, x: Id) returns (i: nat)
    requires BlocksOf(t, project, HeadsTo(t, project, d), blocks)
    requires x in t && HeadTo(t, project, d, x) && Anchor(t, project, x).Some?
    ensures i < |blocks| && blocks[i].anchor == Anchor(t, project, x)
  {
    hide HeadTo, Anchor, WholeBlock;
    var front := blocks[..|blocks| - 1];
    assert InSomeBlock(t, project, front, x);
    i :| 0 <= i < |front| && front[i].anchor == Anchor(t, project, x);
  }

  lemma StoredSibling(t: Table, project: string, d: Option<Id>, p: Card)
    requires WellKeyed(t) && (d.None? || LiveIn(t, project, d.value)) && p in Siblings(t, project, d)
    ensures StaysBelow(t, project, d, p.id) && p.id in t && t[p.id] == p
  {
    hide Siblings, StaysBelow;
    SiblingsMember(t, project, d);
    SiblingStays(t, project, d, p.id);
  }

  lemma TiedByIs(t: Table, project: string, d: Option<Id>, x: Id, p: Id, q: Id)
    requires x in t && p in t && q in t && HeadTo(t, project, d, x)
    requires StaysBelow(t, project, d, p) && StaysBelow(t, project, d, q)
    requires Anchor(t, project, x).Some? && TiedPair(t[p], t[q], Anchor(t, project, x).value)
    ensures Tied(t, project, d)
  {
    hide HeadTo, StaysBelow, Anchor, TiedPair;
    assert TiedBy(t, project, d, x, p, q);
  }

  lemma TiedIds(t: Table, project: string, d: Option<Id>) returns (x: Id, p: Id, q: Id)
    requires Tied(t, project, d)
    ensures x in t && p in t && q in t && HeadTo(t, project, d, x)
    ensures StaysBelow(t, project, d, p) && StaysBelow(t, project, d, q)
    ensures Anchor(t, project, x).Some? && TiedPair(t[p], t[q], Anchor(t, project, x).value)
  {
    hide IsHead, Destination, Anchor, TiedPair;
    x, p, q :| TiedBy(t, project, d, x, p, q);
  }

  /** Where no anchor stands between equal keys every branch returns to the place it held: every
      sibling stands before it exactly when it stood before the branch's anchor. */
  lemma AllBranchesReturn(a: Arithmetic, t: Table, project: string, now: int, plan: Plan, d: Option<Id>, head: Id,
                          sibling: Id)
    requires WellKeyed(t) && Roomy(a) && IsRepair(t, project, now, plan) && Computes(a, t, project, now, plan)
    requires !Tied(t, project, d) && HeadTo(t, project, d, head) && StaysBelow(t, project, d, sibling)
    requires Anchor(t, project, head).Some?
    ensures var t' := SaveAll(t, plan.placements);
      && head in t' && sibling in t' && t'[sibling] == t[sibling]
      && (TreeLess(t'[sibling], t'[head]) <==> TreeLess(t[sibling], Anchor(t, project, head).value))
  {
    hide *;
    DisturbsExactly(a, t, project, now, plan, d);
    Undisturbed(t, project, plan, d, sibling);
    BranchReturns(t, project, now, plan, d, head, sibling);
    SavedRow(t, project, now, plan, sibling);
  }

  /** Exactly then: no card that stays is rewritten, and every branch returns among them. */
  lemma ReturnsExactly(a: Arithmetic, t: Table, project: string, now: int, plan: Plan, d: Option<Id>)
    requires WellKeyed(t) && Roomy(a) && IsRepair(t, project, now, plan) && Computes(a, t, project, now, plan)
    ensures !Tied(t, project, d) <==>
      !Disturbs(t, project, plan, d) && AllReturn(t, SaveAll(t, plan.placements), project, d)
  {
    hide *;
    DisturbsExactly(a, t, project, now, plan, d);
    var t' := SaveAll(t, plan.placements);
    if !Tied(t, project, d) {
      forall head, sibling | Meeting(t, project, d, head, sibling)
        ensures Returns(t, t', project, head, sibling)
      {
        MeetingIs(t, project, d, head, sibling);
        AllBranchesReturn(a, t, project, now, plan, d, head, sibling);
        ReturnsIf(t, t', project, head, sibling);
      }
      AllReturnIf(t, t', project, d);
    }
  }

  /** An anchored head and a card that stays, both below `d` afterwards. */
  ghost predicate Meeting(t: Table, project: string, d: Option<Id>, head: Id, sibling: Id)
  {
    HeadTo(t, project, d, head) && StaysBelow(t, project, d, sibling) && Anchor(t, project, head).Some?
  }

  ghost predicate Returns(t: Table, t': Table, project: string, head: Id, sibling: Id)
  {
    && head in t && sibling in t && head in t' && sibling in t' && Anchor(t, project, head).Some?
    && (TreeLess(t'[sibling], t'[head]) <==> TreeLess(t[sibling], Anchor(t, project, head).value))
  }

  ghost predicate AllReturn(t: Table, t': Table, project: string, d: Option<Id>)
  {
    forall head, sibling :: Meeting(t, project, d, head, sibling) ==> Returns(t, t', project, head, sibling)
  }

  lemma MeetingIs(t: Table, project: string, d: Option<Id>, head: Id, sibling: Id)
    requires Meeting(t, project, d, head, sibling)
    ensures HeadTo(t, project, d, head) && StaysBelow(t, project, d, sibling) && head in t && sibling in t
    ensures Anchor(t, project, head).Some?
  {
    hide Anchor;
  }

  lemma ReturnsIf(t: Table, t': Table, project: string, head: Id, sibling: Id)
    requires head in t && sibling in t && head in t' && sibling in t' && Anchor(t, project, head).Some?
    requires TreeLess(t'[sibling], t'[head]) <==> TreeLess(t[sibling], Anchor(t, project, head).value)
    ensures Returns(t, t', project, head, sibling)
  {
    hide Anchor, TreeLess;
  }

  lemma AllReturnIf(t: Table, t': Table, project: string, d: Option<Id>)
    requires forall head, sibling :: Meeting(t, project, d, head, sibling) ==> Returns(t, t', project, head, sibling)
    ensures AllReturn(t, t', project, d)
  {
    hide Meeting, Returns;
  }

  lemma Undisturbed(t: Table, project: string, plan: Plan, d: Option<Id>, sibling: Id)
    requires !Disturbs(t, project, plan, d) && StaysBelow(t, project, d, sibling)
    ensures sibling !in IdSet(plan.placements) && sibling in t
  {
  }

  lemma SavedRow(t: Table, project: string, now: int, plan: Plan, x: Id)
    requires WellKeyed(t) && IsRepair(t, project, now, plan) && x in t && x !in IdSet(plan.placements)
    ensures x in SaveAll(t, plan.placements) && SaveAll(t, plan.placements)[x] == t[x]
  {
    hide IsHead, Destination, InPlace, SaveAll;
    assert forall c :: c in plan.placements ==> RepairedRow(t, project, now, c);
    SaveAllRows(t, plan.placements);
  }

  // ----- a table on which a branch does not return -----

  const PROJECT := "project"

  function Root(id: Id, key: real, updatedAt: int, deletedAt: Option<int>): Card
  {
    Card(id, PROJECT, id, None, key, updatedAt, deletedAt)
  }

  const P := Root("p", 5.0, 3, None)
  const Q := Root("q", 5.0, 1, None)
  const A1 := Root("a1", 5.0, 2, Some(8))
  const A2 := Root("a2", 2.5, 2, Some(8))
  const C1 := Card("c1", PROJECT, "c1", Some("a1"), 1.0, 1, None)
  const C2 := Card("c2", PROJECT, "c2", Some("a2"), 1.0, 1, None)

  /** Two roots with the same key; a trashed card that stood between them and one that stood
      before both, each with a live child. */
  const TANGLE: Table := map["p" := P, "q" := Q, "a1" := A1, "a2" := A2, "c1" := C1, "c2" := C2]

  lemma ThreeKeys()
    ensures SpacedKeys(Exact(), None, None, 3) == Some([1.0, 2.0, 3.0])
  {
    assert Interpolated(0.0, 4.0, 0, 3) == 1.0 && Interpolated(0.0, 4.0, 1, 3) == 2.0;
    assert Interpolated(0.0, 4.0, 2, 3) == 3.0;
    var a := Exact();
    assert a.mix(0.0, 4.0, 0, 3) == Some(1.0) && a.mix(0.0, 4.0, 1, 3) == Some(2.0);
    assert a.mix(0.0, 4.0, 2, 3) == Some(3.0);
    assert KeysFrom(a, 0.0, 4.0, 3, 3, 3.0) == Some([]);
    assert KeysFrom(a, 0.0, 4.0, 3, 2, 2.0) == Some([3.0] + []);
    var none: seq<real> := [];
    assert [3.0] + none == [3.0];
    assert KeysFrom(a, 0.0, 4.0, 3, 1, 1.0) == Some([2.0] + [3.0]);
    assert [2.0] + [3.0] == [2.0, 3.0];
    assert KeysFrom(a, 0.0, 4.0, 3, 0, 0.0) == Some([1.0] + [2.0, 3.0]);
    assert [1.0] + [2.0, 3.0] == [1.0, 2.0, 3.0];
  }


  lemma TangleRows()
    ensures WellKeyed(TANGLE) && TANGLE.Keys == {"p", "q", "a1", "a2", "c1", "c2"}
  {
  }

  /** Each child is a head that goes to the roots, and its trashed parent is its anchor. */
  lemma TangleHead(c: Card, a: Card)
    requires (c == C1 && a == A1) || (c == C2 && a == A2)
    ensures c.id in TANGLE && HeadTo(TANGLE, PROJECT, None, c.id) && Anchor(TANGLE, PROJECT, c.id) == Some(a)
  {
    assert TANGLE[c.id] == c && TANGLE[a.id] == a;
    assert WalkUp(TANGLE, PROJECT, None, {c.id, a.id}) == Top(None, true);
    assert {c.id} + {a.id} == {c.id, a.id};
    assert WalkUp(TANGLE, PROJECT, Some(a.id), {c.id}) == Top(None, false);
    assert EndsIn(TANGLE, PROJECT, None, 0);
    assert EndsIn(TANGLE, PROJECT, Some(a.id), 1);
    AnchorIs(TANGLE, PROJECT, c.id, 1);
  }

  lemma TangleHeads()
    ensures HeadsTo(TANGLE, PROJECT, None) == {"c1", "c2"}
    ensures WithAnchor(TANGLE, PROJECT, {"c1", "c2"}) == {"c1", "c2"}
    ensures None in Destinations(TANGLE, PROJECT)
  {
    hide Anchor, WalkUp;
    TangleHead(C1, A1);
    TangleHead(C2, A2);
    TangleRows();
    forall x | x in TANGLE && HeadTo(TANGLE, PROJECT, None, x)
      ensures x == "c1" || x == "c2"
    {
    }
    assert "c1" in Heads(TANGLE, PROJECT);
  }

  lemma TangleSiblings()
    ensures WellKeyed(TANGLE) && Siblings(TANGLE, PROJECT, None) == [P, Q]
    ensures StaysBelow(TANGLE, PROJECT, None, "p")
  {
    hide Siblings;
    TangleRows();
    forall c
      ensures c in [P, Q] <==> c.id in TANGLE && TANGLE[c.id] == c && ChildOf(c, PROJECT, None)
    {
    }
    SiblingsAre(TANGLE, PROJECT, None, [P, Q]);
  }

  /** The anchors' ids are in this order. */
  lemma AnchorIds()
    ensures StrLess("a1", "a2") && !StrLess("a2", "a1") && !StrLess("a1", "a1") && !StrLess("a2", "a2")
  {
    assert "a1"[1..] == "1" && "a2"[1..] == "2";
    StrLessIrreflexive("a1");
    StrLessIrreflexive("a2");
    if StrLess("a2", "a1") { StrLessTransitive("a2", "a1", "a2"); }
  }

  /** A block holds one of the two children. */
  lemma TangleBlock(b: Block)
    requires b.anchor.Some? && b.cards != [] && WholeBlock(TANGLE, PROJECT, {"c1", "c2"}, b)
    ensures (b.anchor == Some(A1) && b.cards == [C1]) || (b.anchor == Some(A2) && b.cards == [C2])
  {
    hide Anchor;
    TangleHead(C1, A1);
    TangleHead(C2, A2);
    var c := b.cards[0];
    assert c in b.cards;
    assert OfBlock(TANGLE, PROJECT, {"c1", "c2"}, b.anchor, c);
    assert c == C1 || c == C2;
    forall e | e in b.cards
      ensures e == c
    {
      assert OfBlock(TANGLE, PROJECT, {"c1", "c2"}, b.anchor, e);
    }
    if |b.cards| > 1 {
      assert b.cards[1] in b.cards;
      SortedDistinct(TreeOrder, b.cards, 1, 0);
    }
    assert |b.cards| == 1;
  }

  /** The planner has no choice of blocks. */
  lemma TangleBlocks(blocks: seq<Block>)
    requires BlocksOf(TANGLE, PROJECT, HeadsTo(TANGLE, PROJECT, None), blocks)
    ensures blocks == [Block(Some(A1), [C1]), Block(Some(A2), [C2]), Block(None, [])]
  {
    hide Anchor, HeadTo, StrLess, HeadsTo, WithAnchor;
    TangleHeads();
    AnchorIds();
    var front := blocks[..|blocks| - 1];
    forall i | 0 <= i < |front|
      ensures front[i] == Block(Some(A1), [C1]) || front[i] == Block(Some(A2), [C2])
    {
      TangleBlock(front[i]);
    }
    TangleHead(C1, A1);
    TangleHead(C2, A2);
    assert InSomeBlock(TANGLE, PROJECT, front, "c1") && InSomeBlock(TANGLE, PROJECT, front, "c2");
    TwoBlocks(front);
    EmptyLast(blocks[|blocks| - 1]);
    assert blocks == front + [blocks[|blocks| - 1]];
  }

  lemma TwoBlocks(front: seq<Block>)
    requires forall i :: 0 <= i < |front| ==>
      front[i] == Block(Some(A1), [C1]) || front[i] == Block(Some(A2), [C2])
    requires forall i, j :: 0 <= i < j < |front| ==> StrLess(front[i].anchor.value.id, front[j].anchor.value.id)
    requires exists i :: 0 <= i < |front| && front[i].anchor == Some(A1)
    requires exists i :: 0 <= i < |front| && front[i].anchor == Some(A2)
    ensures front == [Block(Some(A1), [C1]), Block(Some(A2), [C2])]
  {
    hide StrLess;
    var i :| 0 <= i < |front| && front[i].anchor == Some(A1);
    var j :| 0 <= j < |front| && front[j].anchor == Some(A2);
    assert |front| >= 2;
    DistinctBlocks(front, 0, 1);
    if |front| > 2 {
      DistinctBlocks(front, 0, 2);
      DistinctBlocks(front, 1, 2);
    }
    AnchorIds();
  }

  lemma DistinctBlocks(front: seq<Block>, i: nat, j: nat)
    requires forall i :: 0 <= i < |front| ==> front[i].anchor.Some?
    requires forall i, j :: 0 <= i < j < |front| ==> StrLess(front[i].anchor.value.id, front[j].anchor.value.id)
    requires i < j < |front|
    ensures front[i] != front[j]
  {
    hide StrLess;
    StrLessIrreflexive(front[i].anchor.value.id);
  }

  lemma EmptyLast(b: Block)
    requires b.anchor.None? && WholeBlock(TANGLE, PROJECT, {"c1", "c2"}, b)
    ensures b == Block(None, [])
  {
    hide Anchor, Sorted;
    assert |b.cards| > 0 ==> b.cards[0] in b.cards;
    TangleHead(C1, A1);
    TangleHead(C2, A2);
    forall c
      ensures c !in b.cards
    {
      assert !OfBlock(TANGLE, PROJECT, {"c1", "c2"}, None, c);
    }
  }

  /** The first child comes between the two roots, which get new keys. */
  lemma FirstChild()
    ensures PlaceFor([P, Q], Some(A1)) == 1
    ensures var r := InsertBlock(Exact(), [P, Q], 1, [C1], None, 9);
      r.Ok? && |r.value.list| == 3 && r.value.list[0] == P.(key := 1.0, updatedAt := 9)
  {
    assert [P, Q][1..] == [Q];
    assert TreeLess(P, A1) && !TreeLess(Q, A1);
    var list := Spliced([P, Q], 1, [C1], None);
    assert list == [P, C1.(parent := None), Q];
    assert WindowKeys(Exact(), list, 1, 2, 0).None? by { assert Interpolated(5.0, 5.0, 0, 1) == 5.0; }
    ThreeKeys();
    var keys := [1.0, 2.0, 3.0];
    assert WindowKeys(Exact(), list, 1, 2, 1) == Some(keys);
    assert Widen(Exact(), list, 1, 2, 9, 0) == Widen(Exact(), list, 1, 2, 9, 1) == Ok(Rekey(list, 0, 1, 2, keys, 9));
    assert Rekey(list, 0, 1, 2, keys, 9).list[0] == Rekeyed(list, 0, 1, 2, keys, 9, 0);
  }

  ghost predicate Before(list: seq<Card>, x: Id, y: Id)
  {
    exists c, e :: c in list && e in list && c.id == x && e.id == y && TreeLess(c, e)
  }

  /** The second child is placed by those keys, after the first root. */
  lemma SecondChild(list: seq<Card>, p: Placed)
    requires Sorted(TreeOrder, list) && list != [] && list[0] == P.(key := 1.0, updatedAt := 9)
    requires InsertBlock(Exact(), list, PlaceFor(list, Some(A2)), [C2], None, 9) == Ok(p)
    ensures Sorted(TreeOrder, p.list)
    ensures Before(p.list, "p", "c2")
  {
    hide InsertBlock, Sorted, Ids, PlaceFor, IsPlacement, Separated;
    var at := PlaceFor(list, Some(A2));
    PlaceForIs(list, Some(A2));
    assert TreeLess(list[0], A2);
    LowerBoundSplits(list, A2, 0);
    InsertBlockPlaces(Exact(), list, at, [C2], None, 9);
    var ids := Ids(list[..at]) + Ids([C2]) + Ids(list[at..]);
    assert |ids| == |p.list|;
    assert Ids(p.list)[at] == Ids([C2])[0] == "c2" && Ids(p.list)[0] == Ids(list[..at])[0] == "p";
    SortedPair(p.list, 0, at);
    assert p.list[0] in p.list && p.list[at] in p.list && p.list[0].id == "p" && p.list[at].id == "c2";
  }

  lemma SortedPair(list: seq<Card>, i: nat, j: nat)
    requires Sorted(TreeOrder, list) && i < j < |list|
    ensures TreeLess(list[i], list[j])
  {
    assert Less(TreeOrder, list[i], list[j]);
  }

  /** What the planner makes of the table. */
  lemma TangleArranged(blocks: seq<Block>, done: Arranged)
    requires blocks == [Block(Some(A1), [C1]), Block(Some(A2), [C2]), Block(None, [])]
    requires Arrange(Exact(), 9, None, [P, Q], blocks) == Ok(done)
    ensures Before(done.list, "p", "c2")
  {
    hide *;
    var b1, b2, b3 := Block(Some(A1), [C1]), Block(Some(A2), [C2]), Block(None, []);
    assert blocks == [b1, b2] + [b3] && [b1, b2] == [b1] + [b2] && [b1] == [] + [b1];
    var two, last := ArrangeLast(Exact(), 9, None, [P, Q], [b1, b2], b3, done);
    var one, second := ArrangeLast(Exact(), 9, None, [P, Q], [b1], b2, two);
    var none, first := ArrangeLast(Exact(), 9, None, [P, Q], [], b1, one);
    ArrangeNext(Exact(), 9, None, [P, Q], [], b1);
    FirstChild();
    RootsSorted();
    InsertBlockPlaces(Exact(), [P, Q], 1, [C1], None, 9);
    SecondChild(one.list, second);
    NothingInserted(two.list, PlaceFor(two.list, None));
  }

  lemma RootsSorted()
    ensures Sorted(TreeOrder, [P, Q])
  {
  }

  lemma NothingInserted(list: seq<Card>, at: nat)
    requires at <= |list|
    ensures InsertBlock(Exact(), list, at, [], None, 9) == Ok(Placed(list, []))
  {
  }

  /** The property fails: on this table every plan the planner computes in exact arithmetic puts
      the second child after `p`, although its anchor stood before `p`. The table is tied. */
  lemma BranchMisplaced(plan: Plan)
    requires WellKeyed(TANGLE) && IsRepair(TANGLE, PROJECT, 9, plan) && Computes(Exact(), TANGLE, PROJECT, 9, plan)
    ensures Tied(TANGLE, PROJECT, None)
    ensures HeadTo(TANGLE, PROJECT, None, "c2") && StaysBelow(TANGLE, PROJECT, None, "p")
    ensures Anchor(TANGLE, PROJECT, "c2") == Some(A2) && !TreeLess(P, A2)
    ensures var t' := SaveAll(TANGLE, plan.placements); "p" in t' && "c2" in t' && TreeLess(t'["p"], t'["c2"])
  {
    hide *;
    TangleHeads();
    SecondHead();
    TangleSiblings();
    PNotBeforeA2();
    TangleTied();
    ComputesAt(Exact(), TANGLE, PROJECT, 9, plan, None);
    var blocks, done := ComputedBy(Exact(), TANGLE, PROJECT, 9, None, ById(plan.placements));
    TangleBlocks(blocks);
    TangleArranged(blocks, done);
    var c, e := BeforeCards(done.list, "p", "c2");
    PlanRow(TANGLE, PROJECT, 9, plan, "p");
    PlanRow(TANGLE, PROJECT, 9, plan, "c2");
  }

  lemma SecondHead()
    ensures "c2" in TANGLE && "p" in TANGLE && HeadTo(TANGLE, PROJECT, None, "c2")
    ensures Anchor(TANGLE, PROJECT, "c2") == Some(A2)
  {
    hide Anchor, HeadTo;
    TangleHead(C2, A2);
  }

  lemma BeforeCards(list: seq<Card>, x: Id, y: Id) returns (c: Card, e: Card)
    requires Before(list, x, y)
    ensures c in list && e in list && c.id == x && e.id == y && TreeLess(c, e)
  {
    hide TreeLess;
    c, e :| c in list && e in list && c.id == x && e.id == y && TreeLess(c, e);
  }

  lemma PNotBeforeA2()
    ensures !TreeLess(P, A2)
  {
  }

  lemma TangleTied()
    ensures Tied(TANGLE, PROJECT, None)
  {
    hide Anchor, HeadTo, StaysBelow;
    TangleHead(C1, A1);
    TangleSiblings();
    StoredSibling(TANGLE, PROJECT, None, P);
    StoredSibling(TANGLE, PROJECT, None, Q);
    assert TiedPair(P, Q, A1);
    TiedByIs(TANGLE, PROJECT, None, "c1", "p", "q");
  }

  /** A row after the plan is written. */
  lemma PlanRow(t: Table, project: string, now: int, plan: Plan, x: Id)
    requires WellKeyed(t) && IsRepair(t, project, now, plan) && x in t
    ensures x in SaveAll(t, plan.placements) && SaveAll(t, plan.placements)[x] == Row(t, ById(plan.placements), x)
  {
    hide IsHead, Destination, InPlace, SaveAll, ById;
    assert forall c :: c in plan.placements ==> RepairedRow(t, project, now, c);
    SaveAllRows(t, plan.placements);
    ByIdKeys(plan.placements);
    if x in ById(plan.placements) {
      assert ById(plan.placements)[x] in plan.placements;
    } else {
      assert x !in ById(plan.placements).Keys;
    }
  }
}

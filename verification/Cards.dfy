/** Card rows and the orders they are listed in. */
module Cards {
  import opened Common

  type Id = string

  datatype Card = Card(
    id: Id,
    project: string,
    title: string,
    parent: Option<Id>,
    key: real,
    updatedAt: int,
    deletedAt: Option<int>)
  {
    predicate Live() { deletedAt.None? }
  }

  /** The card table, keyed by card id. */
  type Table = map<Id, Card>

  ghost predicate WellKeyed(t: Table)
  {
    forall id :: id in t ==> t[id].id == id
  }

  /** Manual tree order, and the two orders of a collection page. */
  datatype Order = TreeOrder | IdAscending | UpdatedDescending

  /** The manual tree order: sort key, newest update, case-insensitive title, id. */
  predicate TreeLess(a: Card, b: Card)
  {
    if a.key < b.key then true
    else if a.key > b.key then false
    else if a.updatedAt != b.updatedAt then a.updatedAt > b.updatedAt
    else
      var l, r := Lower(a.title), Lower(b.title);
      if l != r then StrLess(l, r) else StrLess(a.id, b.id)
  }

  predicate Less(o: Order, a: Card, b: Card)
  {
    match o
    case TreeOrder => TreeLess(a, b)
    case IdAscending => StrLess(a.id, b.id)
    case UpdatedDescending => a.updatedAt > b.updatedAt || (a.updatedAt == b.updatedAt && StrLess(b.id, a.id))
  }

  lemma LessIrreflexive(o: Order, a: Card, b: Card)
    requires a.id == b.id && (o.TreeOrder? ==> a == b)
    requires o.UpdatedDescending? ==> a == b
    ensures !Less(o, a, b)
  {
    StrLessIrreflexive(a.id);
  }

  lemma LessTransitive(o: Order, a: Card, b: Card, c: Card)
    requires Less(o, a, b) && Less(o, b, c)
    ensures Less(o, a, c)
  {
    var la, lb, lc := Lower(a.title), Lower(b.title), Lower(c.title);
    StrLessIrreflexive(la);
    if StrLess(la, lb) && StrLess(lb, lc) { StrLessTransitive(la, lb, lc); }
    if StrLess(a.id, b.id) && StrLess(b.id, c.id) { StrLessTransitive(a.id, b.id, c.id); }
    if StrLess(c.id, b.id) && StrLess(b.id, a.id) { StrLessTransitive(c.id, b.id, a.id); }
  }

  lemma LessTotal(o: Order, a: Card, b: Card)
    requires a.id != b.id
    ensures Less(o, a, b) || Less(o, b, a)
  {
    StrLessTotal(Lower(a.title), Lower(b.title));
    StrLessTotal(a.id, b.id);
  }

  lemma LessAsymmetric(o: Order, a: Card, b: Card)
    requires Less(o, a, b)
    ensures !Less(o, b, a)
  {
    if Less(o, b, a) {
      LessTransitive(o, a, b, a);
      LessIrreflexive(o, a, a);
    }
  }

  ghost predicate Sorted(o: Order, s: seq<Card>)
  {
    forall i, j :: 0 <= i < j < |s| ==> Less(o, s[i], s[j])
  }

  /** No two cards of the set share an id. */
  ghost predicate DistinctIds(S: set<Card>)
  {
    forall a, b :: a in S && b in S && a.id == b.id ==> a == b
  }

  ghost function Elements(s: seq<Card>): set<Card>
  {
    set c | c in s
  }

  function Ids(s: seq<Card>): (r: seq<Id>)
    ensures |r| == |s| && forall i :: 0 <= i < |s| ==> r[i] == s[i].id
  {
    seq(|s|, i requires 0 <= i < |s| => s[i].id)
  }

  /** `std::lower_bound`: how many leading cards are before `c`. */
  function LowerBound(o: Order, s: seq<Card>, c: Card): (at: nat)
    ensures at <= |s|
    ensures forall i :: 0 <= i < at ==> Less(o, s[i], c)
    ensures at < |s| ==> !Less(o, s[at], c)
  {
    if s == [] || !Less(o, s[0], c) then 0 else 1 + LowerBound(o, s[1..], c)
  }

  /** Insert where `LowerBound` points. */
  lemma SortedInsert(o: Order, s: seq<Card>, c: Card)
    requires Sorted(o, s) && forall x :: x in s ==> x.id != c.id
    ensures var at := LowerBound(o, s, c); Sorted(o, s[..at] + [c] + s[at..])
  {
    var at := LowerBound(o, s, c);
    var r := s[..at] + [c] + s[at..];
    forall k | at <= k < |s|
      ensures Less(o, c, s[k])
    {
      LessTotal(o, c, s[at]);
      if at < k { LessTransitive(o, c, s[at], s[k]); }
    }
    forall i, j | 0 <= i < j < |r|
      ensures Less(o, r[i], r[j])
    {
      if i < at < j { assert r[i] == s[i] && r[j] == s[j - 1]; }
    }
  }

  /** Any finite set of cards with distinct ids, in order. */
  ghost function SortSet(o: Order, S: set<Card>): (r: seq<Card>)
    requires DistinctIds(S)
    ensures Sorted(o, r) && Elements(r) == S
  {
    if S == {} then [] else
      var c :| c in S;
      var rest := SortSet(o, S - {c});
      SortSetStep(o, S, c, rest);
      InsertAt(rest, LowerBound(o, rest, c), c)
  }

  function InsertAt(s: seq<Card>, at: nat, c: Card): seq<Card>
    requires at <= |s|
  {
    s[..at] + [c] + s[at..]
  }

  lemma SortSetStep(o: Order, S: set<Card>, c: Card, rest: seq<Card>)
    requires DistinctIds(S) && c in S && Sorted(o, rest) && Elements(rest) == S - {c}
    ensures var r := InsertAt(rest, LowerBound(o, rest, c), c); Sorted(o, r) && Elements(r) == S
  {
    hide Less, LowerBound;
    var at := LowerBound(o, rest, c);
    assert forall x :: x in rest <==> x in Elements(rest);
    SortedInsert(o, rest, c);
    assert rest == rest[..at] + rest[at..];
    assert forall x :: x in InsertAt(rest, at, c) <==> x == c || x in rest;
  }

  /** Re-sorting has one possible outcome: two sorted sequences of the same cards are equal. */
  lemma {:induction false} SortedUnique(o: Order, s: seq<Card>, t: seq<Card>)
    requires Sorted(o, s) && Sorted(o, t) && Elements(s) == Elements(t)
    ensures s == t
    decreases |s|
  {
    assert forall c :: c in s <==> c in Elements(s);
    assert forall c :: c in t <==> c in Elements(t);
    assert t != [] ==> t[0] in t;
    if s != [] {
      assert s[0] in s && s[0] in t;
      var i :| 0 <= i < |t| && t[i] == s[0];
      assert t[0] in t && t[0] in s;
      var j :| 0 <= j < |s| && s[j] == t[0];
      if i != 0 || j != 0 {
        if j != 0 && i != 0 { LessAsymmetric(o, s[0], s[j]); }
        else { LessIrreflexive(o, s[0], s[0]); }
      }
      SortedTail(o, s);
      SortedTail(o, t);
      SortedUnique(o, s[1..], t[1..]);
      assert s == [s[0]] + s[1..] && t == [t[0]] + t[1..];
    }
  }

  lemma SortedTail(o: Order, s: seq<Card>)
    requires Sorted(o, s) && s != []
    ensures Sorted(o, s[1..]) && Elements(s[1..]) == Elements(s) - {s[0]}
  {
    forall i | 0 <= i < |s[1..]|
      ensures s[1..][i] != s[0]
    {
      assert Less(o, s[0], s[i + 1]);
      if s[i + 1] == s[0] { LessIrreflexive(o, s[0], s[0]); }
    }
    assert s == [s[0]] + s[1..];
  }

  /** Sorting what is already sorted changes nothing. */
  lemma SortSetOf(o: Order, S: set<Card>, s: seq<Card>)
    requires DistinctIds(S) && Sorted(o, s) && Elements(s) == S
    ensures SortSet(o, S) == s
  {
    SortedUnique(o, SortSet(o, S), s);
  }

  /** `std::sort` of a set of rows. */
  method SortCards(o: Order, S: set<Card>) returns (r: seq<Card>)
    requires DistinctIds(S)
    ensures r == SortSet(o, S)
  {
    hide Less, LowerBound, SortSet;
    r := [];
    var todo := S;
    while todo != {}
      invariant todo <= S && Sorted(o, r) && Elements(r) == S - todo
    {
      var c :| c in todo;
      var done := S - todo;
      assert DistinctIds(done + {c});
      assert done + {c} - {c} == done && S - (todo - {c}) == done + {c};
      SortSetStep(o, done + {c}, c, r);
      r := InsertAt(r, LowerBound(o, r, c), c);
      todo := todo - {c};
    }
    assert S - todo == S;
    SortSetOf(o, S, r);
  }

  // ----- the tree -----

  predicate ChildOf(c: Card, project: string, parent: Option<Id>)
  {
    c.Live() && c.project == project && c.parent == parent
  }

  function ChildSet(t: Table, project: string, parent: Option<Id>): (S: set<Card>)
    requires WellKeyed(t)
    ensures DistinctIds(S)
    ensures forall c :: c in S <==> c.id in t && t[c.id] == c && ChildOf(c, project, parent)
  {
    set id | id in t && ChildOf(t[id], project, parent) :: t[id]
  }

  /** The live children of `parent` (or the live roots) in manual tree order. */
  ghost function Siblings(t: Table, project: string, parent: Option<Id>): (s: seq<Card>)
    requires WellKeyed(t)
    ensures Sorted(TreeOrder, s)
    ensures Elements(s) == ChildSet(t, project, parent)
  {
    SortSet(TreeOrder, ChildSet(t, project, parent))
  }

  method ListSiblings(t: Table, project: string, parent: Option<Id>) returns (s: seq<Card>)
    requires WellKeyed(t)
    ensures s == Siblings(t, project, parent)
  {
    s := SortCards(TreeOrder, ChildSet(t, project, parent));
  }

  lemma SiblingsMember(t: Table, project: string, parent: Option<Id>)
    requires WellKeyed(t)
    ensures forall c :: c in Siblings(t, project, parent) <==>
        c.id in t && t[c.id] == c && ChildOf(c, project, parent)
  {
    hide Siblings;
    var s := Siblings(t, project, parent);
    assert forall c :: c in s <==> c in Elements(s);
  }

  /** Reading the children back: any sorted list of exactly the live children is the answer. */
  lemma SiblingsAre(t: Table, project: string, parent: Option<Id>, s: seq<Card>)
    requires WellKeyed(t) && Sorted(TreeOrder, s)
    requires forall c :: c in s <==> c.id in t && t[c.id] == c && ChildOf(c, project, parent)
    ensures Siblings(t, project, parent) == s
  {
    assert Elements(s) == ChildSet(t, project, parent);
    SortSetOf(TreeOrder, ChildSet(t, project, parent), s);
  }

  lemma SortedDistinct(o: Order, s: seq<Card>, i: nat, j: nat)
    requires Sorted(o, s) && i < |s| && j < |s| && s[i] == s[j]
    ensures i == j
  {
    if i != j { LessIrreflexive(o, s[i], s[j]); }
  }
}

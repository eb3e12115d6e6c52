/** Keyset pages of a card collection: `CardRepo::list_collection_page` and
    `CardStore::list_collection_page`. */
module CardPages {
  import opened Common
  import opened Cards
  import TagLine

  datatype ParentFilter = AnyParent | Roots | ChildrenOf(id: Id)

  datatype Cursor = Cursor(id: Id, updatedAt: Option<int>)

  datatype Query = Query(tag: Option<string>, parent: ParentFilter, order: Order, cursor: Option<Cursor>)

  /** The `card_tags` table: project, card, tag; its primary key admits no duplicates. */
  type TagTable = set<(string, Id, string)>

  predicate ParentMatches(c: Card, f: ParentFilter)
  {
    match f
    case AnyParent => true
    case Roots => c.parent.None?
    case ChildrenOf(id) => c.parent == Some(id)
  }

  /** What the query selects, cursor apart. */
  predicate Matches(c: Card, tags: TagTable, project: string, q: Query)
  {
    && c.project == project && c.Live() && ParentMatches(c, q.parent)
    && (q.tag.Some? ==> (project, c.id, Lower(q.tag.value)) in tags)
  }

  function Selected(t: Table, tags: TagTable, project: string, q: Query): (S: set<Card>)
    requires WellKeyed(t)
    ensures DistinctIds(S)
    ensures forall c :: c in S <==> c.id in t && t[c.id] == c && Matches(c, tags, project, q)
  {
    set id | id in t && Matches(t[id], tags, project, q) :: t[id]
  }

  /** The cursor condition of the statement, in each of its two forms. */
  predicate Beyond(c: Card, order: Order, cursor: Cursor)
  {
    if order.IdAscending? then StrLess(cursor.id, c.id)
    else
      && cursor.updatedAt.Some?
      && (c.updatedAt < cursor.updatedAt.value || (c.updatedAt == cursor.updatedAt.value && StrLess(c.id, cursor.id)))
  }

  function BeyondCursor(S: set<Card>, q: Query): set<Card>
  {
    if q.cursor.None? then S else set c | c in S && Beyond(c, q.order, q.cursor.value)
  }

  /** What the query demands of its caller. */
  predicate WellFormed(q: Query)
  {
    && !q.order.TreeOrder?
    && (q.parent.ChildrenOf? ==> q.parent.id != "")
    && (q.cursor.Some? ==> q.cursor.value.id != "")
    && (q.cursor.Some? && q.order.UpdatedDescending? ==> q.cursor.value.updatedAt.Some?)
    && (q.tag.Some? ==> TagLine.ValidTag(q.tag.value))
  }

  function FirstFew(s: seq<Card>, n: nat): seq<Card>
  {
    if n < |s| then s[..n] else s
  }

  lemma SubsetDistinct(S: set<Card>, q: Query)
    requires DistinctIds(S)
    ensures DistinctIds(BeyondCursor(S, q)) && BeyondCursor(S, q) <= S
  {
  }

  /** `CardRepo::list_collection_page`. */
  method SelectRows(t: Table, tags: TagTable, project: string, q: Query, limit: int) returns (r: Result<seq<Card>>)
    requires WellKeyed(t)
    ensures r.Ok? <==> limit > 0 && WellFormed(q)
    ensures DistinctIds(BeyondCursor(Selected(t, tags, project, q), q))
    ensures r.Ok? ==> r.value == FirstFew(SortSet(q.order, BeyondCursor(Selected(t, tags, project, q), q)), limit)
  {
    hide SortSet, Selected, BeyondCursor, DistinctIds;
    SubsetDistinct(Selected(t, tags, project, q), q);
    if limit <= 0 { return Err("limit must be positive"); }
    if q.order.TreeOrder? { return Err("unsupported card page order"); }
    if q.parent.ChildrenOf? && q.parent.id == "" { return Err("children parent card_id must not be empty"); }
    if q.cursor.Some? && q.cursor.value.id == "" { return Err("cursor card_id must not be empty"); }
    if q.cursor.Some? && q.order.UpdatedDescending? && q.cursor.value.updatedAt.None? {
      return Err("updated-order cursor must include updated_at");
    }
    if q.tag.Some? && !TagLine.ValidTag(q.tag.value) { return Err("Invalid tag."); }
    var rows := SortCards(q.order, BeyondCursor(Selected(t, tags, project, q), q));
    return Ok(FirstFew(rows, limit));
  }

  datatype Page = Page(cards: seq<Card>, next: Option<Cursor>)

  /** The page of a sorted list, and the cursor of its last card when there is more. */
  ghost function PageOf(all: seq<Card>, limit: nat): Page
    requires limit > 0
  {
    if |all| <= limit then Page(all, None)
    else Page(all[..limit], Some(Cursor(all[limit - 1].id, Some(all[limit - 1].updatedAt))))
  }

  /** `CardStore::list_collection_page`: one row more than asked for tells whether there is a
      next page. */
  method ListPage(t: Table, tags: TagTable, project: string, q: Query, limit: int) returns (r: Result<Page>)
    requires WellKeyed(t)
    ensures r.Ok? <==> 0 < limit <= 1000 && WellFormed(q)
    ensures DistinctIds(BeyondCursor(Selected(t, tags, project, q), q))
    ensures r.Ok? ==> r.value == PageOf(SortSet(q.order, BeyondCursor(Selected(t, tags, project, q), q)), limit)
  {
    hide SortSet, Selected, BeyondCursor, DistinctIds, WellFormed;
    SubsetDistinct(Selected(t, tags, project, q), q);
    if limit <= 0 || limit > 1000 { return Err("limit must be between 1 and 1000"); }
    var rows := SelectRows(t, tags, project, q, limit + 1);
    if rows.Err? { return Err(rows.error); }
    var cards := rows.value;
    if |cards| > limit {
      var last := cards[limit - 1];
      return Ok(Page(cards[..limit], Some(Cursor(last.id, Some(last.updatedAt)))));
    }
    return Ok(Page(cards, None));
  }

  // ----- following the cursors -----

  lemma CursorOf(c: Card, d: Card, order: Order)
    requires !order.TreeOrder?
    ensures Beyond(d, order, Cursor(c.id, Some(c.updatedAt))) <==> Less(order, c, d)
  {
  }

  /** The cards beyond the cursor of the k-th card are the cards after it. */
  lemma BeyondIsSuffix(S: set<Card>, order: Order, k: nat)
    requires DistinctIds(S) && !order.TreeOrder? && k < |SortSet(order, S)|
    ensures var all := SortSet(order, S);
      var beyond := set c | c in S && Beyond(c, order, Cursor(all[k].id, Some(all[k].updatedAt)));
      DistinctIds(beyond) && SortSet(order, beyond) == all[k + 1..]
  {
    hide SortSet, Beyond, Less;
    var all := SortSet(order, S);
    var cursor := Cursor(all[k].id, Some(all[k].updatedAt));
    var beyond := set c | c in S && Beyond(c, order, cursor);
    assert forall c :: c in all <==> c in Elements(all);
    forall c
      ensures c in all[k + 1..] <==> c in beyond
    {
      CursorOf(all[k], c, order);
      if c in S {
        var i :| 0 <= i < |all| && all[i] == c;
        if i > k {
          assert all[k + 1..][i - k - 1] == c;
        } else {
          NotAfter(order, all, i, k);
        }
      }
    }
    assert Elements(all[k + 1..]) == beyond;
    SortSetOf(order, beyond, all[k + 1..]);
  }

  lemma NotAfter(order: Order, all: seq<Card>, i: nat, k: nat)
    requires Sorted(order, all) && i <= k < |all|
    ensures !Less(order, all[k], all[i]) && all[i] !in all[k + 1..]
  {
    hide Less;
    if i < k { LessAsymmetric(order, all[i], all[k]); } else { LessIrreflexive(order, all[k], all[k]); }
    forall j | k < j < |all|
      ensures all[j] != all[i]
    {
      LessAsymmetric(order, all[i], all[j]);
    }
  }

  /** The last card of some page but the last has no id, so its cursor is refused. */
  ghost predicate BadCursor(all: seq<Card>, limit: nat)
  {
    exists k :: 0 < k < |all| && PageEnd(k, limit) && all[k - 1].id == ""
  }

  ghost predicate PageEnd(k: nat, limit: nat)
  {
    exists pages: nat :: k == pages * limit
  }

  /** Following `next_cursor` to the end yields exactly the selected live cards in order, none
      lost and none twice, for every limit. A card with an empty id can be in the way only as
      the last of a page. */
  method ListAll(t: Table, tags: TagTable, project: string, q: Query, limit: int) returns (r: Result<seq<Card>>)
    requires WellKeyed(t) && WellFormed(q) && q.cursor.None? && 0 < limit <= 1000
    ensures r.Ok? <==> !BadCursor(SortSet(q.order, Selected(t, tags, project, q)), limit)
    ensures r.Ok? ==> r.value == SortSet(q.order, Selected(t, tags, project, q))
  {
    hide *;
    var S := Selected(t, tags, project, q);
    ghost var all := SortSet(q.order, S);
    var query, cards: seq<Card> := q, [];
    NoCursor(S, q);
    assert all[0..] == all;
    FirstPage(all, limit);
    while true
      invariant query == q.(cursor := query.cursor) && WellFormed(query) && DistinctIds(BeyondCursor(S, query))
      invariant |cards| <= |all| && cards == all[..|cards|] && (|all| > 0 ==> |cards| < |all|)
      invariant SortSet(q.order, BeyondCursor(S, query)) == all[|cards|..]
      invariant NoBadYet(all, limit, |cards|) && PageEnd(|cards|, limit)
      decreases |all| - |cards|
    {
      SameSelection(t, tags, project, q, query);
      var page := ListPage(t, tags, project, query, limit);
      ghost var k := |cards|;
      PageIs(all, k, limit);
      cards := cards + page.value.cards;
      if page.value.next.None? {
        LastPage(all, limit, k);
        return Ok(cards);
      }
      NextPage(all, limit, k);
      if page.value.next.value.id == "" {
        BadPage(all, limit, k + limit);
        return Err("cursor card_id must not be empty");
      }
      NextQuery(S, q, all, k + limit - 1);
      query := query.(cursor := page.value.next);
    }
  }

  /** One page of the rest of a list, put behind what was read before. */
  lemma PageIs(all: seq<Card>, k: nat, limit: nat)
    requires k <= |all| && limit > 0
    ensures var page := PageOf(all[k..], limit);
      if page.next.None? then |all| <= k + limit && all[..k] + page.cards == all
      else
        && k + limit < |all| && all[..k] + page.cards == all[..k + limit]
        && page.next == Some(Cursor(all[k + limit - 1].id, Some(all[k + limit - 1].updatedAt)))
  {
    assert all[..k] + all[k..] == all;
    if |all| > k + limit { assert all[..k] + all[k..][..limit] == all[..k + limit]; }
  }

  /** No refused cursor up to here. */
  ghost predicate NoBadYet(all: seq<Card>, limit: nat, upto: nat)
    requires upto <= |all|
  {
    forall k :: 0 < k <= upto && k < |all| && PageEnd(k, limit) ==> all[k - 1].id != ""
  }

  lemma FirstPage(all: seq<Card>, limit: nat)
    ensures NoBadYet(all, limit, 0) && PageEnd(0, limit)
  {
    assert 0 == 0 * limit;
  }

  /** Page ends are `limit` apart. */
  lemma NextPage(all: seq<Card>, limit: nat, k: nat)
    requires 0 < limit && k + limit <= |all| && PageEnd(k, limit) && NoBadYet(all, limit, k)
    ensures PageEnd(k + limit, limit)
    ensures all[k + limit - 1].id != "" ==> NoBadYet(all, limit, k + limit)
  {
    var pages: nat :| k == pages * limit;
    assert k + limit == (pages + 1) * limit;
    forall j | k < j < k + limit
      ensures !PageEnd(j, limit)
    {
      Between(pages, limit, j);
    }
  }

  lemma Between(pages: nat, limit: nat, j: nat)
    requires pages * limit < j < pages * limit + limit
    ensures !PageEnd(j, limit)
  {
    if PageEnd(j, limit) {
      var n: nat :| j == n * limit;
      if n <= pages { Monotone(n, pages, limit); } else { Monotone(pages + 1, n, limit); }
    }
  }

  lemma Monotone(m: nat, n: nat, limit: nat)
    requires m <= n
    ensures m * limit <= n * limit
  {
  }

  lemma LastPage(all: seq<Card>, limit: nat, k: nat)
    requires 0 < limit && k <= |all| <= k + limit && PageEnd(k, limit) && NoBadYet(all, limit, k)
    ensures !BadCursor(all, limit)
  {
    var pages: nat :| k == pages * limit;
    forall j | 0 < j < |all| && PageEnd(j, limit)
      ensures all[j - 1].id != ""
    {
      if j > k { Between(pages, limit, j); }
    }
  }

  lemma BadPage(all: seq<Card>, limit: nat, k: nat)
    requires 0 < k < |all| && PageEnd(k, limit) && all[k - 1].id == ""
    ensures BadCursor(all, limit)
  {
  }

  lemma NoCursor(S: set<Card>, q: Query)
    requires q.cursor.None?
    ensures BeyondCursor(S, q) == S
  {
  }

  lemma SameSelection(t: Table, tags: TagTable, project: string, q: Query, query: Query)
    requires WellKeyed(t) && query == q.(cursor := query.cursor)
    ensures Selected(t, tags, project, query) == Selected(t, tags, project, q)
  {
  }

  /** With every card named there is no refused cursor, so the listing is complete. */
  lemma NamedCards(t: Table, tags: TagTable, project: string, q: Query, limit: nat)
    requires WellKeyed(t) && "" !in t
    ensures !BadCursor(SortSet(q.order, Selected(t, tags, project, q)), limit)
  {
    hide SortSet, Matches, PageEnd;
    var all := SortSet(q.order, Selected(t, tags, project, q));
    forall k | 0 <= k < |all|
      ensures all[k].id != ""
    {
      assert all[k] in Elements(all);
    }
  }

  lemma NextQuery(S: set<Card>, q: Query, all: seq<Card>, k: nat)
    requires DistinctIds(S) && WellFormed(q) && k < |all| && all == SortSet(q.order, S) && all[k].id != ""
    ensures var query := q.(cursor := Some(Cursor(all[k].id, Some(all[k].updatedAt))));
      WellFormed(query) && DistinctIds(BeyondCursor(S, query)) && SortSet(q.order,
                                                                          BeyondCursor(S, query)) == all[k + 1..]
  {
    hide SortSet, Beyond;
    BeyondIsSuffix(S, q.order, k);
  }
}

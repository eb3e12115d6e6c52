/** Paging through a card's history: `GitRepo::history_for_paths` and
    `CardHistoryService::list`. */
module HistoryPages {
  import opened Common
  import opened Sessions

  type Walk = seq<Commit>

  /** The commits of the card, in walk order. */
  function Touching(h: Walk): (r: seq<Commit>)
  {
    if h == [] then [] else (if h[0].touches then [h[0]] else []) + Touching(h[1..])
  }

  lemma {:induction false} TouchingConcat(a: Walk, b: Walk)
    ensures Touching(a + b) == Touching(a) + Touching(b)
    decreases |a|
  {
    hide Touching;
    TouchingFirst(a);
    if a == [] {
      assert a + b == b;
    } else {
      assert (a + b)[1..] == a[1..] + b && (a + b)[0] == a[0];
      TouchingFirst(a + b);
      TouchingConcat(a[1..], b);
    }
  }

  lemma TouchingNext(h: Walk, n: nat)
    requires n < |h|
    ensures Touching(h[..n + 1]) == Touching(h[..n]) + if h[n].touches then [h[n]] else []
  {
    assert h[..n + 1] == h[..n] + [h[n]];
    TouchingConcat(h[..n], [h[n]]);
    assert [h[n]][1..] == [];
  }

  /** How far the walk has gone when `k` of the card's commits have been seen. */
  function Upto(h: Walk, k: nat): (n: nat)
    requires k <= |Touching(h)|
    ensures n <= |h| && (k == 0 <==> n == 0)
  {
    if k == 0 then 0
    else 1 + Upto(h[1..], if h[0].touches then k - 1 else k)
  }

  lemma {:induction false} UptoSplits(h: Walk, k: nat)
    requires k <= |Touching(h)|
    ensures var n := Upto(h, k);
      && Touching(h[..n]) == Touching(h)[..k] && Touching(h[n..]) == Touching(h)[k..]
      && (k > 0 ==> h[n - 1] == Touching(h)[k - 1])
    decreases |h|
  {
    hide *;
    TouchingFirst(h);
    if k > 0 {
      var j := if h[0].touches then k - 1 else k;
      UptoSplits(h[1..], j);
      UptoStep(h, k);
      var n := Upto(h, k);
      assert h[..n] == [h[0]] + h[1..][..n - 1] && h[n..] == h[1..][n - 1..];
      TouchingFirst(h[..n]);
      assert h[..n][1..] == h[1..][..n - 1];
      if j == 0 { UptoNone(h[1..]); }
    } else {
      UptoNone(h);
      assert h[..0] == [] && h[0..] == h;
      TouchingFirst([]);
    }
  }

  lemma UptoStep(h: Walk, k: nat)
    requires 0 < k <= |Touching(h)|
    ensures h != []
    ensures var j := if h[0].touches then k - 1 else k;
      j <= |Touching(h[1..])| && Upto(h, k) == 1 + Upto(h[1..], j) && Upto(h[1..], j) <= |h| - 1
  {
  }

  lemma UptoNone(h: Walk)
    ensures Upto(h, 0) == 0
  {
  }

  lemma TouchingFirst(h: Walk)
    ensures h != [] ==> Touching(h) == (if h[0].touches then [h[0]] else []) + Touching(h[1..])
    ensures h == [] ==> Touching(h) == []
  {
  }

  ghost predicate DistinctOids(h: Walk)
  {
    forall i, j :: 0 <= i < j < |h| ==> h[i].oid != h[j].oid
  }

  /** What follows the cursor commit. */
  function After(h: Walk, cursor: Option<string>): Option<Walk>
  {
    if cursor.None? then Some(h)
    else if h == [] then None
    else if h[0].oid == cursor.value then Some(h[1..])
    else After(h[1..], cursor)
  }

  lemma {:induction false} AfterAt(h: Walk, k: nat)
    requires DistinctOids(h) && k < |h|
    ensures After(h, Some(h[k].oid)) == Some(h[k + 1..])
    decreases |h|
  {
    if k > 0 {
      assert h[0].oid != h[k].oid;
      assert DistinctOids(h[1..]);
      AfterAt(h[1..], k - 1);
    }
  }

  /** What follows a commit that itself follows the cursor. */
  lemma {:induction false} AfterAfter(h: Walk, cursor: Option<string>, rest: Walk, k: nat)
    requires DistinctOids(h) && After(h, cursor) == Some(rest) && k < |rest|
    ensures DistinctOids(rest) && After(h, Some(rest[k].oid)) == Some(rest[k + 1..])
    decreases |h|
  {
    if cursor.None? {
      AfterAt(h, k);
    } else {
      assert DistinctOids(h[1..]);
      if h[0].oid == cursor.value { AfterAt(h[1..], k); } else { AfterAfter(h[1..], cursor, rest, k); }
      AfterWithin(h[1..], if h[0].oid == cursor.value then None else cursor, rest, k);
    }
  }

  lemma {:induction false} AfterWithin(h: Walk, cursor: Option<string>, rest: Walk, k: nat)
    requires After(h, cursor) == Some(rest) && k < |rest|
    ensures exists i :: 0 <= i < |h| && h[i] == rest[k]
    decreases |h|
  {
    if cursor.None? {
      assert h[k] == rest[k];
    } else if h[0].oid == cursor.value {
      assert h[k + 1] == rest[k];
    } else {
      AfterWithin(h[1..], cursor, rest, k);
      var i :| 0 <= i < |h[1..]| && h[1..][i] == rest[k];
      assert h[i + 1] == rest[k];
    }
  }

  // ----- one batch -----

  datatype Batch = Batch(commits: seq<Commit>, hasMore: bool, scanLimited: bool, scanCursor: Option<string>)

  /** The batch holds the card's commits among the first `n` after the cursor, and says why
      it stopped there: enough of them, the scan limit, or the end of the history. */
  ghost predicate IsBatch(rest: Walk, limit: nat, budget: nat, b: Batch, n: nat)
  {
    && n <= |rest| && n <= budget && b.commits == Touching(rest[..n]) && |b.commits| <= limit
    && !(b.hasMore && b.scanLimited)
    && (b.hasMore ==> |b.commits| == limit && n < |rest| && n < budget && rest[n].touches)
    && (b.scanLimited ==> 0 < n == budget < |rest| && b.scanCursor == Some(rest[n - 1].oid))
    && (!b.hasMore && !b.scanLimited ==> n == |rest|)
  }

  /** `history_for_paths`. */
  method HistoryForPaths(h: Walk, limit: nat, cursor: Option<string>, budget: nat)
    returns (r: Result<Batch>, ghost n: nat)
    ensures limit == 0 || budget == 0 || h == [] ==> r == Ok(Batch([], false, false, None))
    ensures limit > 0 && budget > 0 && h != [] ==> (r.Ok? <==> After(h, cursor).Some?)
    ensures limit > 0 && budget > 0 && h != [] && r.Ok? ==> IsBatch(After(h, cursor).value, limit, budget, r.value, n)
  {
    hide After, Touching;
    n := 0;
    if limit == 0 || budget == 0 || h == [] { return Ok(Batch([], false, false, None)), 0; }
    var page := Batch([], false, false, None);
    var seen, scanned, k := cursor.None?, 0, 0;
    ghost var rest := h;
    AfterStart(h, cursor);
    while k < |h|
      invariant k <= |h| && !page.hasMore && !page.scanLimited && scanned <= budget
      invariant !seen ==>
        cursor.Some? && After(h, cursor) == After(h[k..], cursor) && scanned == 0 && page.commits == []
      invariant seen ==> After(h, cursor) == Some(rest) && scanned <= |rest| && h[k..] == rest[scanned..]
      invariant seen ==> page.commits == Touching(rest[..scanned]) && |page.commits| <= limit
      invariant scanned > 0 ==> seen && page.scanCursor == Some(rest[scanned - 1].oid)
      decreases |h| - k
    {
      var c := h[k];
      if !seen {
        AfterStep(h, k, cursor);
        seen := c.oid == cursor.value;
        k := k + 1;
        rest := h[k..];
        assert rest[0..] == rest;
        NoneTouching(rest);
        continue;
      }
      if scanned == budget {
        page := page.(scanLimited := true);
        break;
      }
      assert rest[scanned] == c && rest[scanned + 1..] == h[k + 1..];
      TouchingNext(rest, scanned);
      if c.touches && |page.commits| == limit {
        page := page.(hasMore := true, scanCursor := Some(c.oid));
        break;
      }
      page := page.(scanCursor := Some(c.oid), commits := if c.touches then page.commits + [c] else page.commits);
      scanned := scanned + 1;
      k := k + 1;
    }
    if !seen {
      assert h[k..] == [];
      AfterEnd(cursor);
      return Err("history cursor is not reachable from HEAD"), 0;
    }
    assert k == |h| ==> rest[scanned..] == [];
    return Ok(page), scanned;
  }

  lemma AfterStart(h: Walk, cursor: Option<string>)
    ensures h[0..] == h && Touching(h[..0]) == [] && (cursor.None? ==> After(h, cursor) == Some(h))
  {
  }

  lemma NoneTouching(h: Walk)
    ensures Touching(h[..0]) == []
  {
  }

  lemma AfterStep(h: Walk, k: nat, cursor: Option<string>)
    requires k < |h| && cursor.Some?
    ensures After(h[k..], cursor) == if h[k].oid == cursor.value then Some(h[k + 1..]) else After(h[k + 1..], cursor)
  {
    assert h[k..][1..] == h[k + 1..];
  }

  lemma AfterEnd(cursor: Option<string>)
    requires cursor.Some?
    ensures After([], cursor).None?
  {
  }

  // ----- one page -----

  datatype Page = Page(entries: seq<Entry>, nextCursor: Option<string>, scanLimited: bool)

  /** The page lists the first `m` commits after its cursor, whole sessions at a time unless
      the scan limit ended it, and its cursor names the last of them. */
  ghost predicate IsPage(rest: Walk, limit: nat, budget: nat, page: Page, m: nat)
  {
    && m <= |rest| && page.entries == Fold(Touching(rest[..m])) && |page.entries| <= limit
    && (page.nextCursor.None? ==> m == |rest| && !page.scanLimited)
    && (page.nextCursor.Some? ==> 0 < m && page.nextCursor == Some(rest[m - 1].oid))
    && (page.nextCursor.Some? && !page.scanLimited ==> EndsSession(rest, limit, page.entries, m))
    && (page.scanLimited ==> budget <= m < |rest|)
    && ReadTo(rest, BatchSize(limit), budget, m, page.scanLimited, page.nextCursor.None?)
  }

  const BATCH: nat := 64

  function BatchSize(limit: nat): (size: nat)
    ensures size > 0
  {
    if BATCH < limit then limit else BATCH
  }

  /** How many of the card's commits are within reach of one scan that starts at `k`. */
  function Seen(rest: Walk, k: nat, budget: nat): nat
    requires k <= |rest|
  {
    |Touching(rest[k..if k + budget < |rest| then k + budget else |rest|])|
  }

  /** After `n` full batches, each with more of the card's commits within reach, reading is at `m`. */
  ghost predicate BatchAt(rest: Walk, size: nat, budget: nat, m: nat, n: nat)
    decreases n
  {
    && m <= |rest|
    && if n == 0 then m == 0
       else exists k :: 0 <= k < m && BatchAt(rest, size, budget, k, n - 1) && FullBatch(rest, size, budget, k, m)
  }

  ghost predicate FullBatch(rest: Walk, size: nat, budget: nat, k: nat, m: nat)
    requires k <= |rest|
  {
    Seen(rest, k, budget) > size && |Touching(rest[k..])| > size && m == k + Upto(rest[k..], size)
  }

  /** The batch that starts at `k` is the last of its page, which ends at `m`: after a scan of the
      whole budget with commits left; at the end of the history; or where a commit of the batch
      begins a session too many. */
  ghost predicate BatchStops(rest: Walk, size: nat, budget: nat, k: nat, m: nat, limited: bool, end: bool)
    requires k <= m <= |rest|
  {
    var seen := Seen(rest, k, budget);
    if limited then m == k + budget < |rest| && seen <= size
    else if end then m == |rest| <= k + budget && seen <= size
    else |Touching(rest[k..m])| < size && |Touching(rest[k..m])| < seen
  }

  /** Full batches and a last one lead to `m`. */
  ghost predicate ReadTo(rest: Walk, size: nat, budget: nat, m: nat, limited: bool, end: bool)
    requires m <= |rest|
  {
    exists k, n: nat ::
      0 <= k <= m && BatchAt(rest, size, budget, k, n) && BatchStops(rest, size, budget, k, m, limited, end)
  }

  /** The page is full and the next commit begins another session. */
  ghost predicate EndsSession(rest: Walk, limit: nat, entries: seq<Entry>, m: nat)
    requires m <= |rest|
  {
    && |entries| == limit && entries != [] && Touching(rest[m..]) != []
    && !MayGroup(Last(entries), Touching(rest[m..])[0])
  }

  lemma Advance(rest: Walk, m: nat, k: nat)
    requires m <= |rest| && k <= |Touching(rest[m..])|
    ensures var p := m + Upto(rest[m..], k);
      && p <= |rest| && Touching(rest[..p]) == Touching(rest[..m]) + Touching(rest[m..])[..k]
      && Touching(rest[p..]) == Touching(rest[m..])[k..]
      && (k > 0 ==> p > m && rest[p - 1] == Touching(rest[m..])[k - 1])
      && (k == 0 ==> p == m)
  {
    hide Touching, Upto;
    var s := rest[m..];
    var n := Upto(s, k);
    UptoSplits(s, k);
    assert rest[..m + n] == rest[..m] + s[..n] && rest[m + n..] == s[n..];
    TouchingConcat(rest[..m], s[..n]);
  }

  lemma BatchPrefix(rest: Walk, m: nat, n: nat)
    requires m <= |rest| && n <= |rest| - m
    ensures var s := rest[m..];
      && Touching(s) == Touching(s[..n]) + Touching(s[n..])
      && Touching(rest[..m + n]) == Touching(rest[..m]) + Touching(s[..n])
  {
    hide Touching;
    var s := rest[m..];
    assert s == s[..n] + s[n..] && rest[..m + n] == rest[..m] + s[..n];
    TouchingConcat(s[..n], s[n..]);
    TouchingConcat(rest[..m], s[..n]);
  }

  /** The loop over one batch: sessions grow or begin, until a full page meets the next one. */
  method Consume(before: seq<Entry>, commits: seq<Commit>, limit: nat, ghost done: seq<Commit>)
    returns (entries: seq<Entry>, k: nat)
    requires before == Fold(done) && |before| <= limit && limit > 0
    ensures k <= |commits| && entries == Fold(done + commits[..k]) && |entries| <= limit
    ensures k < |commits| ==> |entries| == limit && entries != [] && !MayGroup(Last(entries), commits[k])
  {
    hide MayGroup, Fold;
    entries, k := before, 0;
    assert done + commits[..0] == done;
    while k < |commits|
      invariant k <= |commits| && entries == Fold(done + commits[..k]) && |entries| <= limit
    {
      var c := commits[k];
      if !(entries != [] && MayGroup(Last(entries), c)) && |entries| == limit { return; }
      FoldNext(done, commits, k);
      entries := Take(entries, c);
      k := k + 1;
    }
  }

  lemma FoldNext(done: seq<Commit>, commits: seq<Commit>, k: nat)
    requires k < |commits|
    ensures Fold(done + commits[..k + 1]) == Take(Fold(done + commits[..k]), commits[k])
  {
    hide *;
    var next := done + commits[..k + 1];
    assert next[..|next| - 1] == done + commits[..k] && next[|next| - 1] == commits[k];
    FoldLast(next);
  }

  /** Where `list` stands between two batches: the first `m` commits are listed. */
  ghost predicate Listed(rest: Walk, limit: nat, entries: seq<Entry>, last: Option<string>, m: nat)
  {
    && m <= |rest| && |entries| <= limit && entries == Fold(Touching(rest[..m]))
    && (m > 0 ==> last == Some(rest[m - 1].oid)) && (m == 0 ==> entries == [])
  }

  /** One batch read and consumed: the page is complete, or there is more to read. */
  method Turn(h: Walk, limit: nat, budget: nat, raw: Option<string>, before: seq<Entry>, lastBefore: Option<string>,
              ghost rest: Walk, ghost m: nat, ghost n: nat)
    returns (page: Result<Option<Page>>, entries: seq<Entry>, last: Option<string>, ghost next: nat)
    requires limit > 0 && budget > 0 && h != [] && Listed(rest, limit, before, lastBefore, m)
    requires BatchAt(rest, BatchSize(limit), budget, m, n)
    requires After(h, raw).Some? ==> After(h, raw) == Some(rest[m..])
    ensures page.Ok? <==> After(h, raw).Some?
    ensures page.Ok? && page.value.Some? ==> IsPage(rest, limit, budget, page.value.value, next)
    ensures page.Ok? && page.value.None? ==>
      m < next && Listed(rest, limit, entries, last, next) && BatchAt(rest, BatchSize(limit), budget, next, n + 1)
  {
    var size := BatchSize(limit);
    hide *;
    ListedIs(rest, limit, before, lastBefore, m);
    entries, last, next := before, lastBefore, m;
    var batch, read := HistoryForPaths(h, size, raw, budget);
    if batch.Err? { return Err(batch.error), entries, last, m; }
    var b := batch.value;
    BatchIs(rest, m, size, budget, b, read);
    var k;
    entries, k := Consume(before, b.commits, limit, Touching(rest[..m]));
    Advance(rest, m, k);
    if k > 0 { last := Some(b.commits[k - 1].oid); }
    if k < |b.commits| {
      next := m + Upto(rest[m..], k);
      StopsWithin(rest, size, budget, m, b, read, k, n);
      FullPage(rest, limit, budget, entries, last, next);
      return Ok(Some(Page(entries, last, false))), entries, last, next;
    }
    assert b.commits[..k] == b.commits;
    if b.scanLimited {
      next := m + read;
      StopsAt(rest, size, budget, m, b, read, n);
      ShortPage(rest, limit, budget, entries, next);
      return Ok(Some(Page(entries, b.scanCursor, true))), entries, last, next;
    }
    if !b.hasMore {
      next := m + read;
      StopsAt(rest, size, budget, m, b, read, n);
      LastPage(rest, limit, budget, entries);
      return Ok(Some(Page(entries, None, false))), entries, last, next;
    }
    next := m + Upto(rest[m..], k);
    MoreSeen(rest, size, budget, m, b, read);
    NextBatch(rest, size, budget, m, next, n);
    ListedIs(rest, limit, entries, last, next);
    page := Ok(None);
  }

  lemma ListedIs(rest: Walk, limit: nat, entries: seq<Entry>, last: Option<string>, m: nat)
    ensures Listed(rest, limit, entries, last, m) <==>
      && m <= |rest| && |entries| <= limit && entries == Fold(Touching(rest[..m]))
      && (m > 0 ==> last == Some(rest[m - 1].oid)) && (m == 0 ==> entries == [])
  {
    hide Fold, Touching;
  }

  lemma BatchIs(rest: Walk, m: nat, limit: nat, budget: nat, b: Batch, n: nat)
    requires m <= |rest| && IsBatch(rest[m..], limit, budget, b, n) && limit > 0
    ensures m + n <= |rest| && |b.commits| <= |Touching(rest[m..])|
    ensures forall k :: 0 <= k <= |b.commits| ==> b.commits[..k] == Touching(rest[m..])[..k]
    ensures forall k :: 0 <= k < |b.commits| ==> b.commits[k] == Touching(rest[m..])[k]
    ensures Touching(rest[..m + n]) == Touching(rest[..m]) + b.commits
    ensures b.hasMore ==> |b.commits| == limit && |Touching(rest[m..])| > limit
    ensures b.scanLimited ==> 0 < n == budget && m + n < |rest| && b.scanCursor == Some(rest[m + n - 1].oid)
    ensures m + n <= |rest| && |Touching(rest[m..m + n])| <= limit
    ensures !b.hasMore && !b.scanLimited ==> m + n == |rest|
  {
    hide Touching;
    BatchPrefix(rest, m, n);
    assert rest[m..][..n] == rest[m..m + n];
    TouchingFirst(rest[m..][n..]);
  }

  lemma FullPage(rest: Walk, limit: nat, budget: nat, entries: seq<Entry>, last: Option<string>, m: nat)
    requires 0 < m <= |rest| && entries == Fold(Touching(rest[..m])) && |entries| == limit
    requires last == Some(rest[m - 1].oid)
    requires entries != [] && Touching(rest[m..]) != [] && !MayGroup(Last(entries), Touching(rest[m..])[0])
    requires ReadTo(rest, BatchSize(limit), budget, m, false, false)
    ensures IsPage(rest, limit, budget, Page(entries, last, false), m)
  {
    hide Fold, Touching, MayGroup, ReadTo;
  }

  lemma ShortPage(rest: Walk, limit: nat, budget: nat, entries: seq<Entry>, m: nat)
    requires budget <= m < |rest| && ReadTo(rest, BatchSize(limit), budget, m, true, false)
    requires 0 < m <= |rest| && entries == Fold(Touching(rest[..m])) && |entries| <= limit
    ensures IsPage(rest, limit, budget, Page(entries, Some(rest[m - 1].oid), true), m)
  {
    hide Fold, Touching, ReadTo;
  }

  lemma {:induction false} TouchingMore(h: Walk, a: nat, b: nat)
    requires a <= b <= |h|
    ensures |Touching(h[..a])| <= |Touching(h[..b])|
  {
    hide Touching;
    assert h[..b] == h[..a] + h[a..b];
    TouchingConcat(h[..a], h[a..b]);
  }

  lemma SeenIs(rest: Walk, k: nat, budget: nat)
    requires k <= |rest|
    ensures var e := if budget < |rest[k..]| then budget else |rest[k..]|;
      Seen(rest, k, budget) == |Touching(rest[k..][..e])|
  {
    hide Touching;
    var e := if budget < |rest[k..]| then budget else |rest[k..]|;
    assert rest[k..][..e] == rest[k..k + e];
  }

  /** A batch that reports more has more within reach. */
  lemma MoreSeen(rest: Walk, size: nat, budget: nat, k: nat, b: Batch, read: nat)
    requires k <= |rest| && IsBatch(rest[k..], size, budget, b, read) && b.hasMore
    ensures Seen(rest, k, budget) > size
  {
    hide Touching, Seen;
    var s := rest[k..];
    SeenIs(rest, k, budget);
    TouchingNext(s, read);
    TouchingMore(s, read + 1, if budget < |s| then budget else |s|);
  }

  /** A batch that was cut short, or is the last. */
  lemma StopsAt(rest: Walk, size: nat, budget: nat, k: nat, b: Batch, read: nat, n: nat)
    requires k <= |rest| && BatchAt(rest, size, budget, k, n) && IsBatch(rest[k..], size, budget, b, read)
    requires b.scanLimited || !b.hasMore
    ensures k + read <= |rest| && ReadTo(rest, size, budget, k + read, b.scanLimited, !b.scanLimited)
  {
    hide Touching, Seen, BatchAt;
    SeenIs(rest, k, budget);
    assert BatchStops(rest, size, budget, k, k + read, b.scanLimited, !b.scanLimited);
  }

  /** A page that ends at the `j`-th commit of a batch. */
  lemma StopsWithin(rest: Walk, size: nat, budget: nat, k: nat, b: Batch, read: nat, j: nat, n: nat)
    requires k <= |rest| && BatchAt(rest, size, budget, k, n) && IsBatch(rest[k..], size, budget, b, read)
    requires j < |b.commits| && j <= |Touching(rest[k..])|
    ensures k + Upto(rest[k..], j) <= |rest| && ReadTo(rest, size, budget, k + Upto(rest[k..], j), false, false)
  {
    hide Touching, Seen, BatchAt, Upto;
    var s := rest[k..];
    SeenIs(rest, k, budget);
    UptoSplits(s, j);
    TouchingMore(s, read, if budget < |s| then budget else |s|);
    var m := k + Upto(s, j);
    assert rest[k..m] == s[..Upto(s, j)];
    assert BatchStops(rest, size, budget, k, m, false, false);
  }

  lemma NextBatch(rest: Walk, size: nat, budget: nat, k: nat, m: nat, n: nat)
    requires k < m <= |rest| && BatchAt(rest, size, budget, k, n) && Seen(rest, k, budget) > size
    requires |Touching(rest[k..])| > size && m == k + Upto(rest[k..], size)
    ensures BatchAt(rest, size, budget, m, n + 1)
  {
    hide Touching, Upto, Seen;
    assert FullBatch(rest, size, budget, k, m);
  }

  lemma LastPage(rest: Walk, limit: nat, budget: nat, entries: seq<Entry>)
    requires entries == Fold(Touching(rest[..|rest|])) && |entries| <= limit
    requires ReadTo(rest, BatchSize(limit), budget, |rest|, false, true)
    ensures IsPage(rest, limit, budget, Page(entries, None, false), |rest|)
  {
    hide Fold, Touching, ReadTo;
  }

  /** `CardHistoryService::list`. */
  method List(h: Walk, limit: nat, cursor: Option<string>, budget: nat) returns (r: Result<Page>, ghost m: nat)
    requires DistinctOids(h)
    ensures !(1 <= limit <= 200) ==> r.Err?
    ensures 1 <= limit <= 200 && (budget == 0 || h == []) ==> r == Ok(Page([], None, false))
    ensures 1 <= limit <= 200 && budget > 0 && h != [] ==> (r.Ok? <==> After(h, cursor).Some?)
    ensures 1 <= limit <= 200 && budget > 0 && h != [] && r.Ok? ==>
      IsPage(After(h, cursor).value, limit, budget, r.value, m)
  {
    hide *;
    m := 0;
    if limit == 0 || limit > 200 { return Err("history limit must be between 1 and 200"), 0; }
    if h == [] || budget == 0 { return Ok(Page([], None, false)), 0; }
    var entries: seq<Entry>, raw, last := [], cursor, None;
    ghost var rest := if After(h, cursor).Some? then After(h, cursor).value else [];
    ghost var n: nat := 0;
    NothingListed(rest, limit, budget);
    while true
      invariant m <= |rest| && BatchAt(rest, BatchSize(limit), budget, m, n) && Listed(rest, limit, entries, last, m)
      invariant After(h, raw).Some? <==> After(h, cursor).Some?
      invariant After(h, cursor).Some? ==> After(h, cursor) == Some(rest) && After(h, raw) == Some(rest[m..])
      decreases |rest| - m
    {
      ghost var next;
      var page;
      page, entries, last, next := Turn(h, limit, budget, raw, entries, last, rest, m, n);
      ListedIs(rest, limit, entries, last, next);
      if page.Err? { return Err(page.error), 0; }
      if page.value.Some? { return Ok(page.value.value), next; }
      raw, m, n := last, next, n + 1;
      AfterAfter(h, cursor, rest, m - 1);
    }
  }

  lemma NothingListed(rest: Walk, limit: nat, budget: nat)
    ensures rest[0..] == rest && BatchAt(rest, BatchSize(limit), budget, 0, 0) && Listed(rest, limit, [], None, 0)
  {
  }

  // ----- all pages -----

  /** Pages read one after the other from `cursor` to the end. */
  ghost predicate Paged(h: Walk, limit: nat, budget: nat, cursor: Option<string>, pages: seq<Page>)
    decreases |pages|
  {
    && pages != [] && After(h, cursor).Some?
    && (exists m: nat :: IsPage(After(h, cursor).value, limit, budget, pages[0], m))
    && if pages[0].nextCursor.None? then |pages| == 1 else Paged(h, limit, budget, pages[0].nextCursor, pages[1..])
  }

  function AllEntries(pages: seq<Page>): seq<Entry>
  {
    if pages == [] then [] else pages[0].entries + AllEntries(pages[1..])
  }

  /** One page and what is left for the others. */
  lemma PageStep(h: Walk, limit: nat, budget: nat, cursor: Option<string>, rest: Walk, page: Page, m: nat)
    requires DistinctOids(h) && After(h, cursor) == Some(rest) && IsPage(rest, limit, budget, page, m)
    ensures m <= |rest| && Touching(rest) == Touching(rest[..m]) + Touching(rest[m..])
    ensures page.nextCursor.Some? ==> 0 < m && After(h, page.nextCursor) == Some(rest[m..])
    ensures page.nextCursor.None? ==> Touching(rest) == Touching(rest[..m])
  {
    hide Touching, Fold, After, DistinctOids, MayGroup, Last, ReadTo;
    assert rest == rest[..m] + rest[m..];
    TouchingConcat(rest[..m], rest[m..]);
    if page.nextCursor.Some? { AfterAfter(h, cursor, rest, m - 1); }
    if page.nextCursor.None? { assert rest[..m] == rest; }
  }

  lemma PageEntries(rest: Walk, limit: nat, budget: nat, page: Page, m: nat)
    requires IsPage(rest, limit, budget, page, m)
    ensures m <= |rest| && page.entries == Fold(Touching(rest[..m]))
    ensures page.nextCursor.Some? && !page.scanLimited ==>
      && page.entries != [] && Touching(rest[m..]) != []
      && !MayGroup(Last(page.entries), Touching(rest[m..])[0])
  {
    hide Touching, Fold, MayGroup, Last, ReadTo;
  }

  /** The first of several pages. */
  lemma FirstOfPages(h: Walk, limit: nat, budget: nat, cursor: Option<string>, pages: seq<Page>)
    returns (rest: Walk, m: nat)
    requires DistinctOids(h) && Paged(h, limit, budget, cursor, pages)
    ensures pages != [] && After(h, cursor) == Some(rest) && IsPage(rest, limit, budget, pages[0], m)
    ensures m <= |rest| && Touching(rest) == Touching(rest[..m]) + Touching(rest[m..])
    ensures pages[0].nextCursor.None? ==> |pages| == 1 && Touching(rest) == Touching(rest[..m])
    ensures pages[0].nextCursor.Some? ==>
      && 0 < m && After(h, pages[0].nextCursor) == Some(rest[m..])
      && Paged(h, limit, budget, pages[0].nextCursor, pages[1..])
    ensures AllEntries(pages) == pages[0].entries + AllEntries(pages[1..])
    ensures |pages| == 1 ==> AllEntries(pages[1..]) == []
  {
    hide Touching, After, DistinctOids, IsPage;
    rest := After(h, cursor).value;
    m :| IsPage(rest, limit, budget, pages[0], m);
    PageStep(h, limit, budget, cursor, rest, pages[0], m);
  }

  /** Paging refines one long listing: with no scan limit hit, the entries of all pages, one
      after the other, are those of a single fold over the whole history. */
  lemma {:induction false} PagesAreTheListing(h: Walk, limit: nat, budget: nat, cursor: Option<string>,
                              pages: seq<Page>)
    requires DistinctOids(h) && Paged(h, limit, budget, cursor, pages)
    requires forall i :: 0 <= i < |pages| ==> !pages[i].scanLimited
    ensures After(h, cursor).Some? && AllEntries(pages) == Fold(Touching(After(h, cursor).value))
    decreases |pages|
  {
    hide *;
    var rest, m := FirstOfPages(h, limit, budget, cursor, pages);
    PageEntries(rest, limit, budget, pages[0], m);
    if pages[0].nextCursor.Some? {
      PagesAreTheListing(h, limit, budget, pages[0].nextCursor, pages[1..]);
      FoldSplit(Touching(rest[..m]), Touching(rest[m..]));
    }
  }

  /** With scan limits, sessions may be cut, but every commit of the card is still shown in
      exactly one save, in order. */
  lemma {:induction false} PagesShowEveryCommit(h: Walk, limit: nat, budget: nat, cursor: Option<string>,
                              pages: seq<Page>)
    requires DistinctOids(h) && Paged(h, limit, budget, cursor, pages)
    ensures After(h, cursor).Some? && AllSaves(AllEntries(pages)) == Touching(After(h, cursor).value)
    decreases |pages|
  {
    hide *;
    var rest, m := FirstOfPages(h, limit, budget, cursor, pages);
    PageEntries(rest, limit, budget, pages[0], m);
    FoldKeepsCommits(Touching(rest[..m]));
    SavesConcat(pages[0].entries, AllEntries(pages[1..]));
    SavesNone();
    if pages[0].nextCursor.Some? { PagesShowEveryCommit(h, limit, budget, pages[0].nextCursor, pages[1..]); }
  }

  /** Cursors strictly advance, so paging ends. */
  lemma {:induction false} PagingEnds(h: Walk, limit: nat, budget: nat, cursor: Option<string>, pages: seq<Page>)
    requires DistinctOids(h) && Paged(h, limit, budget, cursor, pages)
    ensures After(h, cursor).Some? && |pages| <= |After(h, cursor).value| + 1
    decreases |pages|
  {
    hide *;
    var rest, m := FirstOfPages(h, limit, budget, cursor, pages);
    if pages[0].nextCursor.Some? { PagingEnds(h, limit, budget, pages[0].nextCursor, pages[1..]); }
  }

  /** No page of a history within the scan budget is scan-limited. */
  lemma {:induction false} ShortHistory(h: Walk, limit: nat, budget: nat, cursor: Option<string>, pages: seq<Page>)
    requires DistinctOids(h) && Paged(h, limit, budget, cursor, pages) && After(h, cursor).Some?
    requires |After(h, cursor).value| <= budget
    ensures forall i :: 0 <= i < |pages| ==> !pages[i].scanLimited
    decreases |pages|
  {
    hide *;
    var rest, m := FirstOfPages(h, limit, budget, cursor, pages);
    NotLimited(rest, limit, budget, pages[0], m);
    if pages[0].nextCursor.Some? { ShortHistory(h, limit, budget, pages[0].nextCursor, pages[1..]); }
  }

  lemma NotLimited(rest: Walk, limit: nat, budget: nat, page: Page, m: nat)
    requires IsPage(rest, limit, budget, page, m) && |rest| <= budget
    ensures !page.scanLimited
  {
    hide Fold, Touching, ReadTo, EndsSession;
  }

  /** A client that follows the cursors reads exactly such a run of pages. With a scan budget of
      zero it reads one empty page, whatever the history. */
  method ListAll(h: Walk, limit: nat, budget: nat) returns (pages: seq<Page>)
    requires DistinctOids(h) && 1 <= limit <= 200
    ensures budget == 0 ==> pages == [Page([], None, false)]
    ensures budget > 0 ==> Paged(h, limit, budget, None, pages) && AllSaves(AllEntries(pages)) == Touching(h)
    ensures budget > 0 && (forall i :: 0 <= i < |pages| ==> !pages[i].scanLimited) ==>
      AllEntries(pages) == Fold(Touching(h))
    ensures budget > 0 && |h| <= budget ==> AllEntries(pages) == Fold(Touching(h))
  {
    hide Touching, Fold, DistinctOids, AllSaves, AllEntries, Paged;
    if budget == 0 {
      var r, m := List(h, limit, None, budget);
      return [r.value];
    }
    pages := ListFrom(h, limit, budget, None, h);
    PagesShowEveryCommit(h, limit, budget, None, pages);
    if |h| <= budget { ShortHistory(h, limit, budget, None, pages); }
    if forall i :: 0 <= i < |pages| ==> !pages[i].scanLimited { PagesAreTheListing(h, limit, budget, None, pages); }
  }

  method ListFrom(h: Walk, limit: nat, budget: nat, cursor: Option<string>, ghost rest: Walk) returns (pages: seq<Page>)
    requires DistinctOids(h) && 1 <= limit <= 200 && budget > 0 && After(h, cursor) == Some(rest)
    ensures Paged(h, limit, budget, cursor, pages)
    decreases |rest|
  {
    hide IsPage, After, DistinctOids;
    var r, m := List(h, limit, cursor, budget);
    var page := r.value;
    if h == [] {
      m := 0;
      EmptyHistory(cursor, rest, limit, budget);
    }
    PageStep(h, limit, budget, cursor, rest, page, m);
    pages := [page];
    if page.nextCursor.Some? {
      var more := ListFrom(h, limit, budget, page.nextCursor, rest[m..]);
      pages := [page] + more;
      assert pages[1..] == more;
    }
  }

  lemma EmptyHistory(cursor: Option<string>, rest: Walk, limit: nat, budget: nat)
    requires After([], cursor) == Some(rest)
    ensures rest == [] && IsPage(rest, limit, budget, Page([], None, false), 0)
  {
    assert BatchAt(rest, BatchSize(limit), budget, 0, 0);
    assert BatchStops(rest, BatchSize(limit), budget, 0, 0, false, true);
  }
}

/** The history of one card: commits folded into editing sessions and read page by page
    (src/history/CardHistory.cpp, `history_for_paths` of src/git/GitRepo.cpp). */
module Sessions {
  import opened Common

  /** A commit of the revision walk; `touches` when it changes one of the card's two files. */
  datatype Commit = Commit(
    oid: string,
    parents: seq<string>,
    authorName: string,
    authorEmail: string,
    committedAt: int,
    message: string,
    touches: bool)

  datatype Kind = Merged | Created | Moved | Links | Milestones | Deleted | Restored | PermanentlyDeleted | Updated

  predicate StartsWith(s: string, prefix: string)
  {
    prefix <= s
  }

  /** `kind_for`. */
  function KindFor(c: Commit): Kind
  {
    var m := c.message;
    if |c.parents| > 1 || StartsWith(m, "Merge ") then Merged
    else if StartsWith(m, "Add card ") then Created
    else if StartsWith(m, "Move card ") then Moved
    else if StartsWith(m, "Update links for ") || StartsWith(m, "Attach ") then Links
    else if StartsWith(m, "Update milestones for ") then Milestones
    else if StartsWith(m, "Delete card ") then Deleted
    else if StartsWith(m, "Restore card ") then Restored
    else if StartsWith(m, "Permanently delete card ") then PermanentlyDeleted
    else Updated
  }

  /** One session; `saves` oldest first. */
  datatype Entry = Entry(
    firstOid: string,
    lastOid: string,
    parents: seq<string>,
    authorName: string,
    authorEmail: string,
    startedAt: int,
    endedAt: int,
    kind: Kind,
    count: nat,
    isMerge: bool,
    saves: seq<Commit>)

  const SESSION_GAP := 600
  const SESSION_MAX := 1800

  /** `may_group`. The entry's author has been defaulted, the commit's has not. */
  predicate MayGroup(newer: Entry, older: Commit)
  {
    && newer.kind == Updated && KindFor(older) == Updated
    && !newer.isMerge && |older.parents| <= 1
    && newer.authorName == older.authorName && newer.authorEmail == older.authorEmail
    && newer.parents == [older.oid]
    && 0 <= newer.startedAt - older.committedAt <= SESSION_GAP
    && newer.endedAt - older.committedAt <= SESSION_MAX
  }

  function AuthorOf(c: Commit): string
  {
    if c.authorName == "" then "Holder" else c.authorName
  }

  function NewEntry(c: Commit): Entry
  {
    Entry(c.oid, c.oid, c.parents, AuthorOf(c), c.authorEmail,
          c.committedAt, c.committedAt, KindFor(c), 1, |c.parents| > 1, [c])
  }

  function Absorb(e: Entry, c: Commit): Entry
  {
    e.(firstOid := c.oid, startedAt := c.committedAt, parents := c.parents, saves := [c] + e.saves,
       count := e.count + 1)
  }

  function Last(entries: seq<Entry>): Entry
    requires entries != []
  {
    entries[|entries| - 1]
  }

  /** One more commit, newest first. */
  function Take(entries: seq<Entry>, c: Commit): seq<Entry>
  {
    if entries != [] && MayGroup(Last(entries), c) then entries[..|entries| - 1] + [Absorb(Last(entries), c)]
    else entries + [NewEntry(c)]
  }

  /** The whole listing: a single unbounded fold over the card's commits. */
  function Fold(commits: seq<Commit>): (r: seq<Entry>)
    ensures commits != [] ==> r != []
    ensures commits == [] ==> r == []
  {
    if commits == [] then [] else Take(Fold(commits[..|commits| - 1]), commits[|commits| - 1])
  }

  // ----- what a session is -----

  ghost predicate Adjacent(older: Commit, newer: Commit)
  {
    newer.parents == [older.oid] && 0 <= newer.committedAt - older.committedAt <= SESSION_GAP
  }

  /** A run of saves by one author, each the only parent of the next, with no pause over ten
      minutes and no more than thirty minutes in all; or a single commit of any kind. */
  ghost predicate Session(e: Entry)
  {
    && e.count == |e.saves| && e.saves != [] && e.parents == e.saves[0].parents
    && e.firstOid == e.saves[0].oid && e.startedAt == e.saves[0].committedAt
    && e.lastOid == e.saves[|e.saves| - 1].oid && e.endedAt == e.saves[|e.saves| - 1].committedAt
    && (forall i :: 0 <= i < |e.saves| - 1 ==> Adjacent(e.saves[i], e.saves[i + 1]))
    && (|e.saves| > 1 ==> e.endedAt - e.startedAt <= SESSION_MAX)
    && (|e.saves| > 1 ==> forall c :: c in e.saves ==>
          KindFor(c) == Updated && AuthorOf(c) == e.authorName && c.authorEmail == e.authorEmail)
    && e.authorName != ""
    && (|e.saves| == 1 ==> e == NewEntry(e.saves[0]))
    && e.kind == KindFor(e.saves[|e.saves| - 1])
  }

  lemma AbsorbSession(e: Entry, c: Commit)
    requires Session(e) && MayGroup(e, c)
    ensures Session(Absorb(e, c))
  {
    var a := Absorb(e, c);
    hide KindFor;
    assert forall i :: 0 < i < |a.saves| ==> a.saves[i] == e.saves[i - 1];
    forall d | d in a.saves
      ensures KindFor(d) == Updated && AuthorOf(d) == a.authorName && d.authorEmail == a.authorEmail
    {
      if d != c { assert d in e.saves; }
    }
  }

  lemma NewSession(c: Commit)
    ensures Session(NewEntry(c))
  {
    hide KindFor;
  }

  /** Every entry of a listing is a session, and no two neighbours could have been one. */
  lemma {:induction false} FoldSessions(commits: seq<Commit>, i: nat)
    requires i < |Fold(commits)|
    ensures Session(Fold(commits)[i])
    ensures i > 0 ==> !MayGroup(Fold(commits)[i - 1], Newest(Fold(commits)[i]))
    decreases |commits|
  {
    hide Session, MayGroup, KindFor;
    var c, before := commits[|commits| - 1], Fold(commits[..|commits| - 1]);
    if i < |before| { FoldSessions(commits[..|commits| - 1], i); }
    if i == |before| { NewSession(c); NewestOf(c); }
    if i == |before| - 1 && MayGroup(before[i], c) {
      AbsorbSession(before[i], c);
      NewestKept(before[i], c);
    }
  }

  /** An ordinary save: one parent at most, and no message that says otherwise. */
  predicate PlainSave(c: Commit)
  {
    KindFor(c) == Updated && |c.parents| <= 1
  }

  /** The older commit could be one more save of the session whose saves these are: all plain
      saves of one author, the older the only parent of the first, no more than ten minutes before
      it and no more than thirty before the last. */
  ghost predicate CouldJoin(older: Commit, saves: seq<Commit>)
    requires saves != []
  {
    var first, last := saves[0], saves[|saves| - 1];
    && PlainSave(older) && (forall c :: c in saves ==> PlainSave(c))
    && older.authorName == AuthorOf(last) && older.authorEmail == last.authorEmail
    && first.parents == [older.oid] && 0 <= first.committedAt - older.committedAt <= 600
    && last.committedAt - older.committedAt <= 1800
  }

  /** Whether an entry takes in an older commit, in terms of the commits. */
  lemma MayGroupMeans(e: Entry, c: Commit)
    requires Session(e) && e.isMerge == (|e.saves[|e.saves| - 1].parents| > 1)
    ensures MayGroup(e, c) <==> CouldJoin(c, e.saves)
  {
    hide KindFor;
    var last := e.saves[|e.saves| - 1];
    assert last in e.saves;
    if MayGroup(e, c) {
      forall d | d in e.saves
        ensures PlainSave(d)
      {
        var i :| 0 <= i < |e.saves| && e.saves[i] == d;
        if i > 0 { assert Adjacent(e.saves[i - 1], e.saves[i]); }
      }
    }
  }

  /** Whether an entry is a merge is said by its newest save. */
  lemma {:induction false} MergeFlag(commits: seq<Commit>, i: nat)
    requires i < |Fold(commits)|
    ensures Session(Fold(commits)[i])
    ensures var e := Fold(commits)[i]; e.isMerge == (|e.saves[|e.saves| - 1].parents| > 1)
    decreases |commits|
  {
    hide *;
    FoldSessions(commits, i);
    SavesThere(Fold(commits)[i]);
    var front, c := commits[..|commits| - 1], commits[|commits| - 1];
    var before := Fold(front);
    EntryLast(commits, i);
    if i < |before| {
      MergeFlag(front, i);
      SavesThere(before[i]);
      AbsorbFlag(before[i], c);
    }
  }

  lemma EntryLast(commits: seq<Commit>, i: nat)
    requires i < |Fold(commits)|
    ensures commits != []
    ensures var before, c := Fold(commits[..|commits| - 1]), commits[|commits| - 1];
      if i < |before| then Fold(commits)[i] in {before[i], Absorb(before[i], c)}
      else var e := Fold(commits)[i]; e.saves == [c] && e.isMerge == (|c.parents| > 1)
  {
    hide MayGroup, KindFor, Absorb;
  }

  lemma AbsorbFlag(e: Entry, c: Commit)
    requires e.saves != []
    ensures var a := Absorb(e, c);
      a.saves != [] && a.isMerge == e.isMerge && a.saves[|a.saves| - 1] == e.saves[|e.saves| - 1]
  {
  }

  lemma SavesThere(e: Entry)
    requires Session(e)
    ensures e.saves != []
  {
  }

  /** Sessions are as long as they can be: no commit could be one more save of the session listed
      before it. */
  lemma SessionsMaximal(commits: seq<Commit>, i: nat)
    requires 0 < i < |Fold(commits)|
    ensures Session(Fold(commits)[i - 1]) && Session(Fold(commits)[i])
    ensures var newer, older := Fold(commits)[i - 1], Fold(commits)[i];
      !CouldJoin(older.saves[|older.saves| - 1], newer.saves)
  {
    hide *;
    var newer, older := Fold(commits)[i - 1], Fold(commits)[i];
    FoldSessions(commits, i);
    MergeFlag(commits, i - 1);
    MergeFlag(commits, i);
    SavesThere(older);
    SavesThere(newer);
    MayGroupMeans(newer, Newest(older));
    NewestIs(older);
  }

  lemma NewestIs(e: Entry)
    requires e.saves != []
    ensures Newest(e) == e.saves[|e.saves| - 1]
  {
  }

  function Newest(e: Entry): Commit
  {
    if e.saves == [] then Commit("", [], "", "", 0, "", false) else e.saves[|e.saves| - 1]
  }

  lemma NewestOf(c: Commit)
    ensures Newest(NewEntry(c)) == c
  {
  }

  lemma NewestKept(e: Entry, c: Commit)
    requires Session(e)
    ensures Newest(Absorb(e, c)) == Newest(e)
  {
  }

  // ----- every commit once -----

  /** All saves of a listing, newest first. */
  function AllSaves(entries: seq<Entry>): seq<Commit>
  {
    if entries == [] then [] else AllSaves(entries[..|entries| - 1]) + Reversed(Last(entries).saves)
  }

  function Reversed(s: seq<Commit>): seq<Commit>
  {
    if s == [] then [] else Reversed(s[1..]) + [s[0]]
  }

  lemma {:induction false} SavesConcat(a: seq<Entry>, b: seq<Entry>)
    ensures AllSaves(a + b) == AllSaves(a) + AllSaves(b)
    decreases |b|
  {
    hide Reversed;
    if b == [] {
      assert a + b == a;
    } else {
      assert (a + b)[..|a + b| - 1] == a + b[..|b| - 1];
      SavesConcat(a, b[..|b| - 1]);
    }
  }

  /** A listing shows every commit in exactly one save, in order. */
  lemma {:induction false} FoldKeepsCommits(commits: seq<Commit>)
    ensures AllSaves(Fold(commits)) == commits
    decreases |commits|
  {
    hide Take, AllSaves, Fold;
    FoldLast(commits);
    SavesNone();
    if commits != [] {
      var c, before := commits[|commits| - 1], commits[..|commits| - 1];
      FoldKeepsCommits(before);
      TakeSaves(Fold(before), c);
    }
  }

  lemma SavesNone()
    ensures AllSaves([]) == []
  {
  }

  lemma ReversedOne(c: Commit)
    ensures Reversed([c]) == [c]
  {
    assert [c][1..] == [];
  }

  lemma TakeSaves(entries: seq<Entry>, c: Commit)
    ensures AllSaves(Take(entries, c)) == AllSaves(entries) + [c]
  {
    hide MayGroup, KindFor;
    if entries != [] && MayGroup(Last(entries), c) {
      var front, e := entries[..|entries| - 1], Last(entries);
      assert ([c] + e.saves)[1..] == e.saves;
      assert Take(entries, c)[..|entries| - 1] == front;
    } else {
      ReversedOne(c);
      assert Take(entries, c)[..|entries|] == entries;
    }
  }

  /** A listing can be cut between any two sessions. */
  lemma {:induction false} FoldSplit(a: seq<Commit>, b: seq<Commit>)
    requires a == [] || b == [] || !MayGroup(Last(Fold(a)), b[0])
    ensures Fold(a + b) == Fold(a) + Fold(b)
    decreases |b|
  {
    hide *;
    FoldLast([]);
    FoldLast(b);
    if b == [] {
      assert a + b == a;
      assert Fold(a) + [] == Fold(a);
    } else {
      var c, front := b[|b| - 1], b[..|b| - 1];
      assert (a + b)[..|a + b| - 1] == a + front && (a + b)[|a + b| - 1] == c;
      FoldLast(a + b);
      FoldLast(a);
      FoldLast(front);
      assert front != [] ==> front[0] == b[0];
      FoldSplit(a, front);
      assert front == [] ==> b[0] == c;
      TakeAfter(Fold(a), Fold(front), c);
    }
  }

  lemma FoldLast(s: seq<Commit>)
    ensures s == [] ==> Fold(s) == []
    ensures s != [] ==> Fold(s) == Take(Fold(s[..|s| - 1]), s[|s| - 1])
  {
    hide Take;
  }

  /** Taking a commit looks only at the last entry. */
  lemma TakeAfter(x: seq<Entry>, y: seq<Entry>, c: Commit)
    requires y != [] || x == [] || !MayGroup(Last(x), c)
    ensures Take(x + y, c) == x + Take(y, c)
  {
    hide MayGroup, NewEntry, Absorb;
    if y == [] {
      assert x + y == x;
    } else {
      assert Last(x + y) == Last(y) && (x + y)[..|x + y| - 1] == x + y[..|y| - 1];
    }
  }
}

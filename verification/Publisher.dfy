/** Publishing SDK snapshots: scripts/publish-sdk-snapshot.py against the remote tags, releases
    and assets it changes call by call. Runs are serialized, and each may stop at any call. */
module Publisher {
  import opened Common

  type Sha = string
  type Bytes = string

  // ----- the index -----

  datatype Configuration = Configuration(platform: string, architecture: string, buildType: string)

  const CONFIGURATIONS: set<Configuration> := {
    Configuration("linux", "x86_64", "Release"), Configuration("linux", "x86_64", "RelWithDebInfo"),
    Configuration("macos", "arm64", "Release"), Configuration("macos", "arm64", "RelWithDebInfo"),
    Configuration("windows", "x86_64", "Release"), Configuration("windows", "x86_64", "RelWithDebInfo")
  }

  datatype AssetSpec = AssetSpec(name: string, configuration: Configuration, sha256: string, size: int, url: string)

  datatype Index = Index(schema: int, repository: string, commit: Sha, tag: string, version: string,
                         assets: seq<AssetSpec>)

  function SdkTag(commit: Sha): string
  {
    "sdk-" + commit
  }

  function ArchiveName(version: string, c: Configuration): string
  {
    "libholder-" + version + "-" + c.platform + "-" + c.architecture + "-" + Lower(c.buildType) +
    if c.platform == "windows" then ".zip" else ".tar.gz"
  }

  function DownloadUrl(repository: string, commit: Sha, name: string): string
  {
    "https://github.com/" + repository + "/releases/download/" + SdkTag(commit) + "/" + name
  }

  // ----- the textual shapes -----

  predicate Digit(c: char)
  {
    '0' <= c <= '9'
  }

  predicate SuffixChar(c: char)
  {
    Digit(c) || 'a' <= c <= 'z' || 'A' <= c <= 'Z' || c == '.' || c == '-'
  }

  function Digits(s: string): (n: nat)
    ensures n <= |s| && (n < |s| ==> !Digit(s[n])) && forall i :: 0 <= i < n ==> Digit(s[i])
  {
    if s == "" || !Digit(s[0]) then 0 else 1 + Digits(s[1..])
  }

  /** What follows a number and, if asked for, a dot. */
  function AfterNumber(s: string, dot: bool): Option<string>
  {
    var n := Digits(s);
    if n == 0 then None
    else if !dot then Some(s[n..])
    else if n < |s| && s[n] == '.' then Some(s[n + 1..])
    else None
  }

  /** Three dotted numbers, and optionally a hyphen or plus with a non-empty suffix. */
  predicate ValidVersion(v: string)
  {
    var minor := AfterNumber(v, true);
    var patch := if minor.Some? then AfterNumber(minor.value, true) else None;
    var rest := if patch.Some? then AfterNumber(patch.value, false) else None;
    && rest.Some?
    && (rest.value == "" ||
        ((rest.value[0] == '-' || rest.value[0] == '+') && |rest.value| >= 2 &&
         forall i :: 1 <= i < |rest.value| ==> SuffixChar(rest.value[i])))
  }

  /** 64 lower-case hexadecimal digits. */
  predicate ValidChecksum(s: string)
  {
    |s| == 64 && forall i :: 0 <= i < |s| ==> Digit(s[i]) || 'a' <= s[i] <= 'f'
  }

  predicate ValidAsset(index: Index, a: AssetSpec)
  {
    && ValidChecksum(a.sha256)
    && a.configuration in CONFIGURATIONS && a.name == ArchiveName(index.version, a.configuration) && a.size > 0
    && a.url == DownloadUrl(index.repository, index.commit, a.name)
  }

  ghost predicate ValidIndex(index: Index, repository: string, commit: Sha)
  {
    && index.schema == 1 && index.repository == repository && index.commit == commit && index.tag == SdkTag(commit)
    && ValidVersion(index.version) && |index.assets| == 6
    && (forall i :: 0 <= i < |index.assets| ==> ValidAsset(index, index.assets[i]))
    && (forall i, j :: 0 <= i < j < |index.assets| ==> index.assets[i].configuration != index.assets[j].configuration)
  }

  /** `validate_index`. */
  method ValidateIndex(index: Index, repository: string, commit: Sha) returns (ok: bool)
    ensures ok <==> ValidIndex(index, repository, commit)
  {
    hide ValidAsset, SdkTag, ValidVersion;
    if index.schema != 1 || index.repository != repository || index.commit != commit { return false; }
    if index.tag != SdkTag(commit) { return false; }
    if !ValidVersion(index.version) || |index.assets| != 6 { return false; }
    var seen: set<Configuration> := {};
    for k := 0 to |index.assets|
      invariant forall i :: 0 <= i < k ==> ValidAsset(index, index.assets[i])
      invariant forall i, j :: 0 <= i < j < k ==> index.assets[i].configuration != index.assets[j].configuration
      invariant forall c :: c in seen <==> exists i :: 0 <= i < k && index.assets[i].configuration == c
    {
      var a := index.assets[k];
      if !ValidAsset(index, a) || a.configuration in seen { return false; }
      seen := seen + {a.configuration};
    }
    return true;
  }

  function Configured(assets: seq<AssetSpec>): set<Configuration>
  {
    set i | 0 <= i < |assets| :: assets[i].configuration
  }

  lemma {:induction false} ConfiguredCount(assets: seq<AssetSpec>)
    requires forall i, j :: 0 <= i < j < |assets| ==> assets[i].configuration != assets[j].configuration
    ensures |Configured(assets)| == |assets|
    decreases |assets|
  {
    if assets != [] {
      var front, last := assets[..|assets| - 1], assets[|assets| - 1];
      ConfiguredCount(front);
      assert last.configuration !in Configured(front);
      assert forall i :: 0 <= i < |front| ==> front[i] == assets[i];
      assert Configured(assets) == Configured(front) + {last.configuration};
    }
  }

  /** A valid index is complete: it names an archive for every configuration. */
  lemma ValidIsComplete(index: Index, repository: string, commit: Sha)
    requires ValidIndex(index, repository, commit)
    ensures Configured(index.assets) == CONFIGURATIONS
  {
    hide ValidAsset, ValidVersion;
    SixConfigurations();
    ConfiguredCount(index.assets);
    assert Configured(index.assets) <= CONFIGURATIONS by {
      forall i | 0 <= i < |index.assets|
        ensures index.assets[i].configuration in CONFIGURATIONS
      {
        ValidConfiguration(index, i);
      }
    }
    FullSubset(Configured(index.assets), CONFIGURATIONS);
  }

  lemma SixConfigurations()
    ensures |CONFIGURATIONS| == 6
  {
  }

  lemma ValidConfiguration(index: Index, i: nat)
    requires i < |index.assets| && ValidAsset(index, index.assets[i])
    ensures index.assets[i].configuration in CONFIGURATIONS
  {
    hide ArchiveName, DownloadUrl, ValidChecksum;
  }

  lemma FullSubset<T>(a: set<T>, b: set<T>)
    requires a <= b && |a| == |b|
    ensures a == b
  {
    assert a + (b - a) == b;
    assert |b - a| == 0;
  }

  // ----- the remote -----

  datatype Asset = Asset(id: nat, name: string, bytes: Bytes, digest: Option<string>)

  datatype Release = Release(tag: string, draft: bool, prerelease: bool, assets: seq<Asset>)

  datatype Remote = Remote(tags: map<string, Sha>, releases: map<nat, Release>, nextRelease: nat, nextAsset: nat)

  const LATEST_GREEN: string := "latest-green"
  const INDEX_NAME: string := "sdk-index.json"
  const MAX_INDEX: nat := 1048576

  /** What cannot be seen from here: reading an index file, hashing, and whether the remote
      reports checksums of its own. */
  datatype Tools = Tools(parse: Bytes -> Option<Index>, sha256: Bytes -> string, digests: bool)

  function Find(assets: seq<Asset>, name: string): Option<Asset>
  {
    if assets == [] then None else if assets[0].name == name then Some(assets[0]) else Find(assets[1..], name)
  }

  ghost predicate DistinctNames(assets: seq<Asset>)
  {
    forall i, j :: 0 <= i < j < |assets| ==> assets[i].name != assets[j].name
  }

  /** The remote's own checksum, or one of the downloaded bytes. */
  function DigestOf(tools: Tools, a: Asset): string
  {
    if a.digest.Some? then a.digest.value else "sha256:" + tools.sha256(a.bytes)
  }

  predicate ArchiveMatches(tools: Tools, assets: seq<Asset>, a: AssetSpec)
  {
    var found := Find(assets, a.name);
    && found.Some? && |found.value.bytes| == a.size
    && DigestOf(tools, found.value) == "sha256:" + a.sha256
  }

  /** The index a release carries. */
  function IndexOf(tools: Tools, r: Release): Option<Index>
  {
    var file := Find(r.assets, INDEX_NAME);
    if file.Some? && |file.value.bytes| < MAX_INDEX then tools.parse(file.value.bytes) else None
  }

  function NamesOf(assets: seq<Asset>): set<string>
  {
    set i | 0 <= i < |assets| :: assets[i].name
  }

  function Expected(index: Index): set<string>
  {
    {INDEX_NAME} + set i | 0 <= i < |index.assets| :: index.assets[i].name
  }

  /** A release that passed verification for its commit: a valid index, exactly the files it
      names, each with the recorded size and checksum. */
  ghost predicate Sound(tools: Tools, repository: string, tags: map<string, Sha>, r: Release, commit: Sha)
  {
    && r.prerelease && r.tag == SdkTag(commit) && Get(tags, r.tag) == Some(commit) && DistinctNames(r.assets)
    && var index := IndexOf(tools, r);
       && index.Some? && ValidIndex(index.value, repository, commit) && NamesOf(r.assets) == Expected(index.value)
       && forall i :: 0 <= i < |index.value.assets| ==> ArchiveMatches(tools, r.assets, index.value.assets[i])
  }

  ghost predicate Verified(tools: Tools, repository: string, tags: map<string, Sha>, r: Release, expected: Index,
                           draft: bool)
  {
    && r.draft == draft && Sound(tools, repository, tags, r, expected.commit)
    && IndexOf(tools, r).value.version == expected.version && (draft ==> IndexOf(tools, r).value == expected)
  }

  /** `verify_release`. */
  method VerifyRelease(tools: Tools, repository: string, tags: map<string, Sha>, r: Release, expected: Index,
                       draft: bool)
    returns (ok: bool)
    requires expected.tag == SdkTag(expected.commit)
    ensures ok <==> Verified(tools, repository, tags, r, expected, draft)
  {
    hide ValidIndex, ArchiveMatches, SdkTag, Expected, NamesOf;
    if r.draft != draft || !r.prerelease || r.tag != expected.tag { return false; }
    if Get(tags, r.tag) != Some(expected.commit) { return false; }
    var distinct := CheckNames(r.assets);
    if !distinct { return false; }
    var index := IndexOf(tools, r);
    if index.None? { return false; }
    var valid := ValidateIndex(index.value, repository, expected.commit);
    if !valid || index.value.version != expected.version || (draft && index.value != expected) { return false; }
    if NamesOf(r.assets) != Expected(index.value) { return false; }
    for k := 0 to |index.value.assets|
      invariant forall i :: 0 <= i < k ==> ArchiveMatches(tools, r.assets, index.value.assets[i])
    {
      if !ArchiveMatches(tools, r.assets, index.value.assets[k]) { return false; }
    }
    return true;
  }

  method CheckNames(assets: seq<Asset>) returns (ok: bool)
    ensures ok <==> DistinctNames(assets)
  {
    for k := 0 to |assets|
      invariant DistinctNames(assets[..k])
    {
      if exists i :: 0 <= i < k && assets[i].name == assets[k].name { return false; }
      assert assets[..k + 1] == assets[..k] + [assets[k]];
    }
    assert assets[..|assets|] == assets;
    return true;
  }

  // ----- safety -----

  /** Commits and their parents, and what the compare call answers about them. */
  type Graph = map<Sha, seq<Sha>>

  ghost predicate DescendsIn(graph: Graph, b: Sha, a: Sha, n: nat)
    decreases n
  {
    if n == 0 then a == b
    else b in graph && exists i :: 0 <= i < |graph[b]| && DescendsIn(graph, graph[b][i], a, n - 1)
  }

  ghost predicate Descends(graph: Graph, b: Sha, a: Sha)
  {
    exists n: nat :: DescendsIn(graph, b, a, n)
  }

  lemma {:induction false} DescendsFurther(graph: Graph, c: Sha, b: Sha, a: Sha, m: nat, n: nat)
    requires DescendsIn(graph, c, b, m) && DescendsIn(graph, b, a, n)
    ensures DescendsIn(graph, c, a, m + n)
    decreases m
  {
    if m > 0 {
      var i :| 0 <= i < |graph[c]| && DescendsIn(graph, graph[c][i], b, m - 1);
      DescendsFurther(graph, graph[c][i], b, a, m - 1, n);
      assert DescendsIn(graph, graph[c][i], a, m + n - 1);
    }
  }

  lemma DescendsTransitive(graph: Graph, c: Sha, b: Sha, a: Sha)
    requires Descends(graph, c, b) && Descends(graph, b, a)
    ensures Descends(graph, c, a)
  {
    var m: nat :| DescendsIn(graph, c, b, m);
    var n: nat :| DescendsIn(graph, b, a, n);
    DescendsFurther(graph, c, b, a, m, n);
  }

  lemma DescendsSelf(graph: Graph, a: Sha)
    ensures Descends(graph, a, a)
  {
    assert DescendsIn(graph, a, a, 0);
  }

  datatype Comparison = Ahead | Behind | Identical | Diverged

  /** `compare/base...head` is ahead only for another commit that descends from the base. */
  ghost predicate Faithful(graph: Graph, compare: (Sha, Sha) -> Comparison)
  {
    && (forall a, b :: compare(a, b) == Ahead ==> a != b && Descends(graph, b, a))
    && (forall a, b :: compare(a, b) == Identical ==> a == b)
  }

  /** Published releases stay as they are, and no tag but `latest-green` moves. */
  ghost predicate Kept(a: Remote, b: Remote)
  {
    && (forall id :: id in a.releases && !a.releases[id].draft ==> id in b.releases && b.releases[id] == a.releases[id])
    && (forall t :: t in a.tags && t != LATEST_GREEN ==> t in b.tags && b.tags[t] == a.tags[t])
  }

  /** `latest-green` only moves to descendants. */
  ghost predicate Advances(graph: Graph, a: Remote, b: Remote)
  {
    LATEST_GREEN in a.tags ==> LATEST_GREEN in b.tags && Descends(graph, b.tags[LATEST_GREEN], a.tags[LATEST_GREEN])
  }

  ghost predicate Safe(graph: Graph, a: Remote, b: Remote)
  {
    Kept(a, b) && Advances(graph, a, b)
  }

  /** The commit has a published release that passed verification. */
  ghost predicate Published(tools: Tools, repository: string, s: Remote, commit: Sha)
  {
    exists id :: id in s.releases && !s.releases[id].draft && Sound(tools, repository, s.tags, s.releases[id], commit)
  }

  ghost predicate HasAsset(r: Release, id: nat)
  {
    exists i :: 0 <= i < |r.assets| && r.assets[i].id == id
  }

  /** Asset ids are unique across releases. */
  ghost predicate AssetIds(s: Remote)
  {
    && (forall r :: r in s.releases ==> r < s.nextRelease)
    && (forall r, id: nat :: r in s.releases && HasAsset(s.releases[r], id) ==> id < s.nextAsset)
    && (forall r, q, id: nat ::
          r in s.releases && q in s.releases && HasAsset(s.releases[r], id) && HasAsset(s.releases[q], id) ==> r == q)
  }

  /** `latest-green` names a published, verified snapshot. */
  ghost predicate Green(tools: Tools, repository: string, s: Remote)
  {
    AssetIds(s) && (LATEST_GREEN in s.tags ==> Published(tools, repository, s, s.tags[LATEST_GREEN]))
  }

  lemma SafeSelf(graph: Graph, a: Remote)
    ensures Safe(graph, a, a)
  {
    if LATEST_GREEN in a.tags { DescendsSelf(graph, a.tags[LATEST_GREEN]); }
  }

  lemma SafeTransitive(graph: Graph, a: Remote, b: Remote, c: Remote)
    requires Safe(graph, a, b) && Safe(graph, b, c)
    ensures Safe(graph, a, c)
  {
    hide Descends;
    if LATEST_GREEN in a.tags {
      DescendsTransitive(graph, c.tags[LATEST_GREEN], b.tags[LATEST_GREEN], a.tags[LATEST_GREEN]);
    }
  }

  lemma SoundKept(tools: Tools, repository: string, a: map<string, Sha>, b: map<string, Sha>, r: Release, commit: Sha)
    requires Sound(tools, repository, a, r, commit) && Get(b, r.tag) == Get(a, r.tag)
    ensures Sound(tools, repository, b, r, commit)
  {
    hide ValidIndex, ArchiveMatches, IndexOf, DistinctNames, NamesOf, Expected, SdkTag;
  }

  lemma NotPointer(commit: Sha)
    ensures SdkTag(commit) != LATEST_GREEN
  {
    assert SdkTag(commit)[0] != LATEST_GREEN[0];
  }

  lemma PublishedKept(tools: Tools, repository: string, a: Remote, b: Remote, commit: Sha)
    requires Kept(a, b) && Published(tools, repository, a, commit)
    ensures Published(tools, repository, b, commit)
  {
    var id :| id in a.releases && !a.releases[id].draft && Sound(tools, repository, a.tags, a.releases[id], commit);
    hide ValidIndex, ArchiveMatches, IndexOf, DistinctNames, NamesOf, Expected, SdkTag;
    NotPointer(commit);
    SoundKept(tools, repository, a.tags, b.tags, a.releases[id], commit);
  }

  /** Everything but `latest-green` may change as long as published releases and tags are kept. */
  lemma KeptGreen(tools: Tools, repository: string, graph: Graph, a: Remote, b: Remote)
    requires Green(tools, repository, a) && Kept(a, b) && AssetIds(b)
    requires Get(b.tags, LATEST_GREEN) == Get(a.tags, LATEST_GREEN)
    ensures Green(tools, repository, b) && Safe(graph, a, b)
  {
    hide AssetIds, Kept, Published, Descends;
    if LATEST_GREEN in a.tags {
      PublishedKept(tools, repository, a, b, a.tags[LATEST_GREEN]);
      DescendsSelf(graph, a.tags[LATEST_GREEN]);
    }
  }

  // ----- the calls -----

  /** A publication run: what it publishes, whether its CI run was green, when it stops. */
  datatype Job = Job(index: Index, files: seq<(string, Bytes)>, green: bool, fuse: nat, torn: Option<nat>,
                     publishes: bool)

  datatype Verdict = Promoted | KeptNewer | AlreadyGreen | Refused(reason: string) | Stopped

  class GitHub {
    const tools: Tools
    const repository: string
    const compare: (Sha, Sha) -> Comparison
    ghost const graph: Graph

    var tags: map<string, Sha>
    var releases: map<nat, Release>
    var nextRelease: nat
    var nextAsset: nat

    /** How many more calls are made before the run stops, and what the interrupted upload
        leaves of its file. */
    var fuse: nat
    var torn: Option<nat>

    /** Whether a publish call that is answered also takes effect. */
    var publishes: bool

    constructor (tools: Tools, repository: string, compare: (Sha, Sha) -> Comparison, ghost graph: Graph)
      requires Faithful(graph, compare)
      ensures Valid() && State() == Remote(map[], map[], 0, 0) && this.graph == graph && this.compare == compare
    {
      this.tools, this.repository, this.compare, this.graph := tools, repository, compare, graph;
      tags, releases, nextRelease, nextAsset, fuse, torn, publishes := map[], map[], 0, 0, 0, None, true;
    }

    function State(): Remote
      reads this
    {
      Remote(tags, releases, nextRelease, nextAsset)
    }

    ghost predicate Valid()
      reads this
    {
      Faithful(graph, compare) && Green(tools, repository, State())
    }

    /** That many calls were made, if there were as many to go. */
    ghost predicate Spent(ok: bool, before: nat, calls: nat)
      reads this
    {
      ok == (before >= calls) && (ok ==> fuse == before - calls)
    }

    /** A call that uploads nothing. */
    ghost predicate NothingUploaded(publishes0: bool, nextAsset0: nat)
      reads this
    {
      publishes == publishes0 && nextAsset == nextAsset0
    }

    method Spend() returns (ok: bool)
      modifies this`fuse
      ensures ok == (old(fuse) > 0) && fuse == if ok then old(fuse) - 1 else 0
    {
      ok := fuse > 0;
      if ok { fuse := fuse - 1; }
    }

    /** `create_tag` for a snapshot tag that does not exist yet. */
    method CreateSnapshotTag(commit: Sha) returns (ok: bool)
      requires Valid() && SdkTag(commit) !in tags
      modifies this
      ensures Valid() && Safe(graph, old(State()), State()) && releases == old(releases)
      ensures Spent(ok, old(fuse), 1) && NothingUploaded(old(publishes), old(nextAsset))
      ensures tags == if ok then old(tags)[SdkTag(commit) := commit] else old(tags)
    {
      hide Sound, Descends, SdkTag, AssetIds, Published;
      NotPointer(commit);
      ok := Spend();
      if ok { tags := tags[SdkTag(commit) := commit]; }
      assert AssetIds(State()) by { SameReleases(old(State()), State()); }
      KeptGreen(tools, repository, graph, old(State()), State());
    }

    method CreateDraft(tag: string) returns (ok: bool, id: nat)
      requires Valid()
      modifies this
      ensures Valid() && Safe(graph, old(State()), State()) && tags == old(tags)
      ensures ok ==> id !in old(releases) && releases == old(releases)[id := Release(tag, true, true, [])]
      ensures !ok ==> State() == old(State())
      ensures Spent(ok, old(fuse), 1) && NothingUploaded(old(publishes), old(nextAsset))
    {
      hide Sound, Descends, Published;
      ok := Spend();
      id := nextRelease;
      if ok { releases, nextRelease := releases[id := Release(tag, true, true, [])], nextRelease + 1; }
      KeptGreen(tools, repository, graph, old(State()), State());
    }

    /** `release(tag)`: the published release of the tag, or else some draft of it. */
    method FindRelease(tag: string) returns (r: Option<nat>)
      ensures r.Some? ==> r.value in releases && releases[r.value].tag == tag
      ensures r.Some? && releases[r.value].draft ==> NoPublished(tag)
      ensures r.None? ==> forall id :: id in releases ==> releases[id].tag != tag
    {
      var published := set id | id in releases && releases[id].tag == tag && !releases[id].draft;
      if published != {} {
        var id :| id in published;
        return Some(id);
      }
      assert forall id :: id in releases && releases[id].tag == tag && !releases[id].draft ==> id in published;
      var drafts := set id | id in releases && releases[id].tag == tag;
      if drafts != {} {
        var id :| id in drafts;
        return Some(id);
      }
      assert forall id :: id in releases && releases[id].tag == tag ==> id in drafts;
      return None;
    }

    ghost predicate NoPublished(tag: string)
      reads this
    {
      forall id :: id in releases && releases[id].tag == tag ==> releases[id].draft
    }

    /** `delete_draft_asset`. The call names the asset alone, whatever release it is in. */
    method DeleteAsset(asset: nat) returns (ok: bool)
      requires Valid() && forall r :: r in releases && HasAsset(releases[r], asset) ==> releases[r].draft
      modifies this
      ensures Valid() && Safe(graph, old(State()), State()) && tags == old(tags) && SameShells(old(releases), releases)
      ensures releases == if ok then Deleted(old(releases), asset) else old(releases)
      ensures Spent(ok, old(fuse), 1) && NothingUploaded(old(publishes), old(nextAsset))
    {
      hide Sound, Descends, Published, AssetIds, SameShells, HasAsset;
      ok := Spend();
      if ok {
        releases := Deleted(releases, asset);
        Shrunk(old(State()), State(), asset);
      } else {
        ShellsSelf(releases);
      }
      KeptGreen(tools, repository, graph, old(State()), State());
    }

    /** The loop that clears a draft before its files are uploaded again. */
    method ClearDraft(id: nat) returns (ok: bool)
      requires Valid() && id in releases && releases[id].draft
      modifies this
      ensures Valid() && Safe(graph, old(State()), State()) && tags == old(tags) && SameShells(old(releases), releases)
      ensures ok ==> releases == old(releases)[id := old(releases)[id].(assets := [])]
      ensures Spent(ok, old(fuse), |old(releases)[id].assets|) && NothingUploaded(old(publishes), old(nextAsset))
    {
      hide Safe, Green, SameShells, Deleted, OnlyLeft;
      var assets := releases[id].assets;
      ok := true;
      SafeSelf(graph, State());
      ShellsSelf(releases);
      AllLeft(releases, id);
      for k := 0 to |assets|
        invariant ok && Valid() && Safe(graph, old(State()), State()) && tags == old(tags)
        invariant SameShells(old(releases), releases) && OnlyLeft(old(releases), releases, id, assets, k)
        invariant fuse + k == old(fuse) && NothingUploaded(old(publishes), old(nextAsset))
      {
        OnlyHere(old(State()), State(), id, assets[k].id, tools, repository);
        ghost var before := State();
        ok := DeleteAsset(assets[k].id);
        SafeTransitive(graph, old(State()), before, State());
        ShellsTransitive(old(releases), before.releases, releases);
        if !ok { return; }
        OneLess(old(State()), before.releases, id, assets, k, tools, repository);
      }
      NoneLeft(old(releases), releases, id, assets);
    }

    /** One file of `upload`. It goes to the release the tag finds, and must be new there. */
    method UploadFile(tag: string, name: string, bytes: Bytes, digest: Option<string>) returns (ok: bool)
      requires Valid() && NoPublished(tag)
      modifies this
      ensures Valid() && Safe(graph, old(State()), State()) && tags == old(tags) && NoPublished(tag)
      ensures releases.Keys == old(releases).Keys && publishes == old(publishes)
      ensures forall id :: Sole(old(releases), tag, id) && Find(old(releases)[id].assets, name).None? ==>
        Spent(ok, old(fuse), 1)
      ensures forall id :: Sole(old(releases), tag, id) && ok ==>
        && nextAsset == old(nextAsset) + 1
        && releases == old(releases)[id := WithAsset(old(releases)[id], Asset(old(nextAsset), name, bytes, digest))]
    {
      hide Sound, Descends, Published, AssetIds, Find;
      SafeSelf(graph, State());
      var found := FindRelease(tag);
      if found.None? { return false; }
      var id := found.value;
      if Find(releases[id].assets, name).Some? { return false; }
      ok := Spend();
      if ok {
        Append(id, Asset(nextAsset, name, bytes, digest));
      } else if torn.Some? {
        Append(id, Asset(nextAsset, name, if torn.value < |bytes| then bytes[..torn.value] else bytes, None));
      }
    }

    method Append(id: nat, a: Asset)
      requires Valid() && id in releases && releases[id].draft && a.id == nextAsset
      modifies this
      ensures Valid() && Safe(graph, old(State()), State()) && tags == old(tags)
      ensures releases == old(releases)[id := WithAsset(old(releases)[id], a)] && nextAsset == old(nextAsset) + 1
      ensures fuse == old(fuse) && publishes == old(publishes)
    {
      hide Sound, Descends, Published, AssetIds;
      releases := releases[id := releases[id].(assets := releases[id].assets + [a])];
      nextAsset := nextAsset + 1;
      Grown(old(State()), State(), id, a);
      KeptGreen(tools, repository, graph, old(State()), State());
    }

    method Upload(tag: string, files: seq<(string, Bytes)>) returns (ok: bool)
      requires Valid() && NoPublished(tag)
      modifies this
      ensures Valid() && Safe(graph, old(State()), State()) && tags == old(tags) && NoPublished(tag)
      ensures releases.Keys == old(releases).Keys && publishes == old(publishes)
      ensures forall id :: Fillable(old(releases), tag, id, files) ==> Spent(ok, old(fuse), |files|)
      ensures forall id :: Fillable(old(releases), tag, id, files) && ok ==>
        releases == old(releases)[id := old(releases)[id].(assets := AssetsOf(tools, files, old(nextAsset)))]
    {
      hide Safe, Green, AssetsOf, DistinctFiles, Find;
      ok := true;
      SafeSelf(graph, State());
      NoAssets(tools, files, nextAsset);
      ghost var first, n0, fuse0 := releases, nextAsset, fuse;
      for k := 0 to |files|
        invariant ok && Valid() && Safe(graph, old(State()), State()) && tags == old(tags) && NoPublished(tag)
        invariant releases.Keys == old(releases).Keys && publishes == old(publishes)
        invariant forall id :: Fillable(first, tag, id, files) ==>
          fuse + k == fuse0 && nextAsset == n0 + k &&
          releases == first[id := first[id].(assets := AssetsOf(tools, files[..k], n0))]
      {
        ghost var before := State();
        forall id | Fillable(first, tag, id, files)
          ensures id in releases && Sole(releases, tag, id) && Find(releases[id].assets, files[k].0).None?
          ensures WithAsset(releases[id], Asset(nextAsset, files[k].0, files[k].1, DigestFor(tools, files[k].1))) ==
            first[id].(assets := AssetsOf(tools, files[..k + 1], n0))
        {
          NextFile(tools, first, tag, id, files, k, n0);
        }
        ok := UploadFile(tag, files[k].0, files[k].1, DigestFor(tools, files[k].1));
        SafeTransitive(graph, old(State()), before, State());
        if !ok { return; }
      }
      assert files[..|files|] == files;
    }

    /** `publish_release`. */
    method Publish(id: nat) returns (ok: bool)
      requires Valid() && id in releases && releases[id].draft
      modifies this
      ensures Valid() && Safe(graph, old(State()), State()) && tags == old(tags)
      ensures releases == if ok && old(publishes)
                          then old(releases)[id := old(releases)[id].(draft := false, prerelease := true)]
                          else old(releases)
      ensures Spent(ok, old(fuse), 1) && NothingUploaded(old(publishes), old(nextAsset))
    {
      hide Sound, Descends, Published, AssetIds;
      ok := Spend();
      if ok && publishes {
        releases := releases[id := releases[id].(draft := false, prerelease := true)];
        Relabelled(old(State()), State(), id);
      }
      KeptGreen(tools, repository, graph, old(State()), State());
    }

    /** The last part of `publish_snapshot`: read `latest-green`, compare, move it forward. */
    method Promote(commit: Sha) returns (verdict: Verdict)
      requires Valid() && Published(tools, repository, State(), commit)
      modifies this
      ensures Valid() && Safe(graph, old(State()), State()) && releases == old(releases)
      ensures verdict.Promoted? <==> Get(tags, LATEST_GREEN) == Some(commit) != Get(old(tags), LATEST_GREEN)
      ensures tags == if verdict.Promoted? then old(tags)[LATEST_GREEN := commit] else old(tags)
      ensures Judged(compare, Get(old(tags), LATEST_GREEN), commit, old(fuse), verdict)
    {
      hide Sound, AssetIds, Published, Descends;
      SafeSelf(graph, State());
      if LATEST_GREEN in tags {
        match compare(tags[LATEST_GREEN], commit)
        case Behind => return KeptNewer;
        case Identical => return AlreadyGreen;
        case Diverged => return Refused("Candidate and latest-green have diverged");
        case Ahead =>
      }
      var ok := Spend();
      if !ok { return Stopped; }
      tags := tags[LATEST_GREEN := commit];
      Moved(tools, repository, graph, compare, old(State()), State(), commit);
      verdict := Promoted;
    }

    /** `publish_snapshot`, stopped wherever the fuse runs out. */
    method PublishSnapshot(index: Index, files: seq<(string, Bytes)>, green: bool) returns (verdict: Verdict)
      requires Valid() && ValidIndex(index, repository, index.commit)
      modifies this
      ensures Valid() && Safe(graph, old(State()), State())
      ensures verdict.Promoted? ==> Get(tags, LATEST_GREEN) == Some(index.commit)
      ensures verdict.Promoted? || Get(tags, LATEST_GREEN) == Get(old(tags), LATEST_GREEN)
      ensures verdict.Promoted? || verdict.KeptNewer? || verdict.AlreadyGreen? ==>
        Published(tools, repository, State(), index.commit)
      ensures !green || Elsewhere(old(tags), index.commit) ==> verdict.Refused? && State() == old(State())
      ensures green && !Elsewhere(old(tags), index.commit) ==>
        Settles(tools, repository, compare, old(State()), index, files, old(fuse), old(publishes), verdict)
    {
      hide Green, Faithful, Published, SdkTag, ValidIndex, Verified, Advances, Judged, Done, Settles;
      SafeSelf(graph, State());
      if !green { return Refused("Core CI did not pass for this exact main-branch commit"); }
      IndexTag(index, repository, index.commit);
      ghost var s0 := State();
      var tag := SdkTag(index.commit);
      NotPointer(index.commit);
      if tag in tags && tags[tag] != index.commit { return Refused("Snapshot tag already points elsewhere"); }
      if tag !in tags {
        NeverSettles(tools, repository, compare, s0, index, files, fuse, publishes);
        var ok := CreateSnapshotTag(index.commit);
        if !ok { return Stopped; }
      }
      ghost var tagged, left := State(), fuse;
      assert tags == Tagged(s0.tags, index.commit) && left == old(fuse) - TagCalls(s0.tags, index.commit);
      var failure := MakePublished(index, files, tag);
      SafeTransitive(graph, s0, tagged, State());
      ghost var rest := fuse;
      if failure.Some? {
        verdict := failure.value;
      } else {
        ghost var published := State();
        verdict := Promote(index.commit);
        SafeTransitive(graph, s0, published, State());
        PublishedKept(tools, repository, published, State(), index.commit);
      }
      DoneSettles(tools, repository, compare, s0, tagged, index, files, old(fuse), old(publishes), failure, rest,
                  verdict);
    }

    /** The middle part of `publish_snapshot`, with the tag in place: verify what is published
        already, or else fill and publish a draft. */
    method MakePublished(index: Index, files: seq<(string, Bytes)>, tag: string) returns (failure: Option<Verdict>)
      requires Valid() && index.tag == tag == SdkTag(index.commit)
      modifies this
      ensures Valid() && Safe(graph, old(State()), State()) && tags == old(tags)
      ensures failure.None? ==> Published(tools, repository, State(), index.commit)
      ensures failure.Some? ==> failure.value.Stopped? || failure.value.Refused?
      ensures Done(tools, repository, old(State()), index, files, old(fuse), old(publishes), failure, fuse)
    {
      hide Green, Faithful, Published, SdkTag, Verified, Safe, Ready, SolePublished, DraftCalls, Verifies, Drafted;
      SafeSelf(graph, State());
      var found := FindRelease(tag);
      FoundIs(State(), files, tag, found);
      if found.Some? && !releases[found.value].draft {
        var ok := VerifyRelease(tools, repository, tags, releases[found.value], index, false);
        DraftedStops(fuse, 0, true, true);
        DraftedRefused(fuse, 0, false, true, Refused("Published snapshot does not verify"));
        if !ok { return Some(Refused("Published snapshot does not verify")); }
        IsPublished(tools, repository, State(), found.value, index, false);
        return None;
      }
      failure := PublishDraft(index, files, tag, found);
    }

    /** The branch for a snapshot not yet published: fill a draft, verify it, publish it. */
    method PublishDraft(index: Index, files: seq<(string, Bytes)>, tag: string, found: Option<nat>)
      returns (failure: Option<Verdict>)
      requires Valid() && index.tag == tag == SdkTag(index.commit) && NoPublished(tag)
      requires found.Some? ==>
        found.value in releases && releases[found.value].tag == tag && releases[found.value].draft
      requires found.None? ==> forall id :: id in releases ==> releases[id].tag != tag
      modifies this
      ensures Valid() && Safe(graph, old(State()), State()) && tags == old(tags)
      ensures failure.None? ==> Published(tools, repository, State(), index.commit)
      ensures failure.Some? ==> failure.value.Stopped? || failure.value.Refused?
      ensures Ready(old(State()), files, tag, found) ==>
        && Drafted(old(fuse), DraftCalls(old(State()), files, found),
                   Verifies(tools, repository, old(State()), tags, index, files, found), old(publishes), failure)
        && (failure.None? ==> fuse == old(fuse) - DraftCalls(old(State()), files, found))
    {
      hide Green, Faithful, Safe, Published, SameShells, SdkTag, Verified, Sound, AssetsOf, DistinctFiles, Ready, Sole,
           FilledDraft, Verifies, DraftCalls, Drafted, Fillable;
      ghost var s0, ready := State(), Ready(State(), files, tag, found);
      ghost var calls, fits := DraftCalls(s0, files, found), Verifies(tools, repository, s0, tags, index, files, found);
      SafeSelf(graph, s0);
      var ok, id := true, 0;
      if found.Some? { id := found.value; } else { ok, id := CreateDraft(tag); }
      CallsAre(s0, files, found);
      DraftedStops(old(fuse), calls, fits, publishes);
      if !ok { return Some(Stopped); }
      ghost var s1 := State();
      ok := ClearDraft(id);
      SafeTransitive(graph, s0, s1, State());
      ShellsKeep(s1.releases, releases, tag);
      if !ok { return Some(Stopped); }
      ghost var s2 := State();
      if ready { ReadyFillable(tools, s0, files, tag, found, id, releases); }
      ok := Upload(tag, files);
      SafeTransitive(graph, s0, s2, State());
      if !ok { return Some(Stopped); }
      if ready { FitsIs(tools, repository, s0, tags, index, files, found, releases[id]); }
      ok := VerifyRelease(tools, repository, tags, releases[id], index, true);
      DraftedRefused(old(fuse), calls, fits, publishes, Refused("Draft does not verify"));
      if !ok { return Some(Refused("Draft does not verify")); }
      ghost var s3 := State();
      VerifiedDraft(tools, repository, tags, releases[id], index);
      ok := Publish(id);
      SafeTransitive(graph, s0, s3, State());
      if !ok { return Some(Stopped); }
      DraftedRefused(old(fuse), calls, fits, publishes, Refused("SDK snapshot is still a draft"));
      if releases[id].draft { return Some(Refused("SDK snapshot is still a draft")); }
      PublishedDraft(tools, repository, s3, State(), id, index);
      failure := None;
    }

    /** Serialized publication jobs, each stopped at any call. `history` holds the remote
        before, between and after them. */
    method Serve(jobs: seq<Job>) returns (ghost history: seq<Remote>)
      requires Valid() && forall i :: 0 <= i < |jobs| ==> ValidIndex(jobs[i].index, repository, jobs[i].index.commit)
      modifies this
      ensures Valid() && |history| == |jobs| + 1 && history[0] == old(State()) && history[|jobs|] == State()
      ensures forall i :: 0 <= i < |history| ==> Green(tools, repository, history[i])
      ensures forall i, j :: 0 <= i <= j < |history| ==> Safe(graph, history[i], history[j])
    {
      hide Green, Safe, ValidIndex, Faithful;
      history := [State()];
      SafeSelf(graph, State());
      for k := 0 to |jobs|
        invariant Valid() && |history| == k + 1 && history[0] == old(State()) && history[k] == State()
        invariant forall i :: 0 <= i < |history| ==> Green(tools, repository, history[i])
        invariant forall i, j :: 0 <= i <= j < |history| ==> Safe(graph, history[i], history[j])
      {
        fuse, torn, publishes := jobs[k].fuse, jobs[k].torn, jobs[k].publishes;
        var verdict := PublishSnapshot(jobs[k].index, jobs[k].files, jobs[k].green);
        SafeSelf(graph, State());
        forall i | 0 <= i <= k
          ensures Safe(graph, history[i], State())
        {
          SafeTransitive(graph, history[i], history[k], State());
        }
        history := history + [State()];
      }
    }
  }

  // ----- when a run succeeds -----

  /** No release of the tag yet, or one release, a draft, and files that can all be put there. */
  ghost predicate Ready(s: Remote, files: seq<(string, Bytes)>, tag: string, found: Option<nat>)
  {
    && DistinctFiles(files)
    && (found.Some? ==> Sole(s.releases, tag, found.value) && s.releases[found.value].draft)
    && (found.None? ==> forall id :: id in s.releases ==> s.releases[id].tag != tag)
  }

  /** What the draft is once the files are in it. */
  ghost function FilledDraft(tools: Tools, s: Remote, files: seq<(string, Bytes)>, tag: string, found: Option<nat>)
    : Release
  {
    Release(tag, true, if found.Some? && found.value in s.releases then s.releases[found.value].prerelease else true,
            AssetsOf(tools, files, s.nextAsset))
  }

  /** The draft, filled with these files, would pass verification. */
  ghost predicate Verifies(tools: Tools, repository: string, s: Remote, tags: map<string, Sha>, index: Index,
                           files: seq<(string, Bytes)>, found: Option<nat>)
  {
    Verified(tools, repository, tags, FilledDraft(tools, s, files, SdkTag(index.commit), found), index, true)
  }

  /** The calls it takes: make or clear the draft, upload, publish. */
  ghost function DraftCalls(s: Remote, files: seq<(string, Bytes)>, found: Option<nat>): nat
  {
    (if found.Some? && found.value in s.releases then |s.releases[found.value].assets| else 1) + |files| + 1
  }

  /** The one published release of its tag. */
  ghost predicate SolePublished(releases: map<nat, Release>, tag: string, id: nat)
  {
    && id in releases && releases[id].tag == tag && !releases[id].draft
    && forall r :: r in releases && releases[r].tag == tag && !releases[r].draft ==> r == id
  }

  /** When each verdict about `latest-green` is given: it is moved exactly when it is absent or
      behind the candidate and a call is left for it. */
  ghost predicate Judged(compare: (Sha, Sha) -> Comparison, current: Option<Sha>, commit: Sha, fuse: nat,
                         verdict: Verdict)
  {
    var forward := current.None? || compare(current.value, commit) == Ahead;
    && (verdict.Promoted? <==> forward && fuse > 0)
    && (verdict.Stopped? <==> forward && fuse == 0)
    && (verdict.KeptNewer? <==> current.Some? && compare(current.value, commit) == Behind)
    && (verdict.AlreadyGreen? <==> current.Some? && compare(current.value, commit) == Identical)
    && (verdict.Refused? <==> current.Some? && compare(current.value, commit) == Diverged)
  }

  /** What publishing the tagged snapshot comes to: nothing is called for a snapshot published
      earlier, and a draft takes its calls. */
  ghost predicate Done(tools: Tools, repository: string, s: Remote, index: Index, files: seq<(string, Bytes)>,
                       fuse: nat, publishes: bool, failure: Option<Verdict>, left: int)
  {
    && (forall id :: SolePublished(s.releases, SdkTag(index.commit), id) ==>
          && Drafted(fuse, 0, Verified(tools, repository, s.tags, s.releases[id], index, false), true, failure)
          && (failure.None? ==> left == fuse))
    && (forall found :: Ready(s, files, SdkTag(index.commit), found) ==>
          && Drafted(fuse, DraftCalls(s, files, found), Verifies(tools, repository, s, s.tags, index, files, found),
                     publishes, failure)
          && (failure.None? ==> left == fuse - DraftCalls(s, files, found)))
  }

  /** The verdict of a whole run, whether the snapshot was published earlier or goes into a new
      or an interrupted draft. */
  ghost predicate Settles(tools: Tools, repository: string, compare: (Sha, Sha) -> Comparison, s: Remote, index: Index,
                          files: seq<(string, Bytes)>, fuse: nat, publishes: bool, verdict: Verdict)
  {
    && (forall id :: SolePublished(s.releases, SdkTag(index.commit), id) ==>
          Settled(compare, s.tags, index.commit, fuse, 0,
                  Verified(tools, repository, Tagged(s.tags, index.commit), s.releases[id], index, false), true,
                  verdict))
    && (forall found :: Ready(s, files, SdkTag(index.commit), found) ==>
          Settled(compare, s.tags, index.commit, fuse, DraftCalls(s, files, found),
                  Verifies(tools, repository, s, Tagged(s.tags, index.commit), index, files, found), publishes,
                  verdict))
  }

  lemma NeverSettles(tools: Tools, repository: string, compare: (Sha, Sha) -> Comparison, s: Remote, index: Index,
                     files: seq<(string, Bytes)>, fuse: nat, publishes: bool)
    ensures SdkTag(index.commit) !in s.tags && fuse == 0 ==>
        Settles(tools, repository, compare, s, index, files, fuse, publishes, Stopped)
  {
    hide SdkTag, Verified, Verifies, DraftCalls, Ready, SolePublished;
  }

  lemma SettledFrom(compare: (Sha, Sha) -> Comparison, tags: map<string, Sha>, commit: Sha, fuse: nat, calls: nat,
                    verifies: bool, takesEffect: bool, failure: Option<Verdict>, left: int, verdict: Verdict)
    requires fuse >= TagCalls(tags, commit)
    requires Drafted(fuse - TagCalls(tags, commit), calls, verifies, takesEffect, failure)
    requires failure.None? ==> left == fuse - TagCalls(tags, commit) - calls
    requires if failure.Some? then verdict == failure.value
             else left >= 0 ==> Judged(compare, Get(tags, LATEST_GREEN), commit, left, verdict)
    ensures Settled(compare, tags, commit, fuse, calls, verifies, takesEffect, verdict)
  {
    hide Judged, TagCalls;
  }

  lemma DoneSettles(tools: Tools, repository: string, compare: (Sha, Sha) -> Comparison, s: Remote, tagged: Remote,
                    index: Index, files: seq<(string, Bytes)>, fuse: nat, publishes: bool, failure: Option<Verdict>,
                    left: nat, verdict: Verdict)
    requires fuse >= TagCalls(s.tags, index.commit)
    requires tagged.releases == s.releases && tagged.nextAsset == s.nextAsset
    requires tagged.tags == Tagged(s.tags, index.commit)
    requires Done(tools, repository, tagged, index, files, fuse - TagCalls(s.tags, index.commit), publishes, failure,
                  left)
    requires if failure.Some? then verdict == failure.value
             else Judged(compare, Get(s.tags, LATEST_GREEN), index.commit, left, verdict)
    ensures Settles(tools, repository, compare, s, index, files, fuse, publishes, verdict)
  {
    hide SdkTag, Verified, Verifies, DraftCalls, Ready, SolePublished, Drafted, Settled, Judged, TagCalls, Tagged;
    var commit, tag := index.commit, SdkTag(index.commit);
    var now := Tagged(s.tags, commit);
    forall id | SolePublished(s.releases, tag, id)
      ensures id in s.releases
      ensures Settled(compare, s.tags, commit, fuse, 0, Verified(tools, repository, now, s.releases[id], index, false),
                      true, verdict)
    {
      SoleIn(s.releases, tag, id);
      SettledFrom(compare, s.tags, commit, fuse, 0, Verified(tools, repository, now, s.releases[id], index, false),
                  true, failure, left, verdict);
    }
    forall found | Ready(s, files, tag, found)
      ensures Settled(compare, s.tags, commit, fuse, DraftCalls(s, files, found),
                      Verifies(tools, repository, s, now, index, files, found), publishes, verdict)
    {
      DraftIs(tools, repository, s, tagged, now, index, files, found);
      SettledFrom(compare, s.tags, commit, fuse, DraftCalls(s, files, found),
                  Verifies(tools, repository, s, now, index, files, found), publishes, failure, left, verdict);
    }
  }

  lemma SoleIn(releases: map<nat, Release>, tag: string, id: nat)
    requires SolePublished(releases, tag, id)
    ensures id in releases
  {
  }

  /** Which release the run works on. */
  lemma FoundIs(s: Remote, files: seq<(string, Bytes)>, tag: string, found: Option<nat>)
    requires found.Some? ==> found.value in s.releases && s.releases[found.value].tag == tag
    requires found.Some? && s.releases[found.value].draft ==>
      forall id :: id in s.releases && s.releases[id].tag == tag ==> s.releases[id].draft
    requires found.None? ==> forall id :: id in s.releases ==> s.releases[id].tag != tag
    ensures forall id :: SolePublished(s.releases, tag, id) ==>
      found == Some(id) && id in s.releases && !s.releases[id].draft
    ensures forall f :: Ready(s, files, tag, f) ==>
      f == found && (found.Some? ==> s.releases[found.value].draft)
  {
    hide DistinctFiles;
  }

  /** Creating the snapshot tag changes nothing that the draft depends on. */
  lemma DraftIs(tools: Tools, repository: string, s: Remote, tagged: Remote, tags: map<string, Sha>, index: Index,
                files: seq<(string, Bytes)>, found: Option<nat>)
    requires tagged.releases == s.releases && tagged.nextAsset == s.nextAsset
    ensures DraftCalls(tagged, files, found) == DraftCalls(s, files, found)
    ensures forall tag :: Ready(tagged, files, tag, found) == Ready(s, files, tag, found)
    ensures Verifies(tools, repository, tagged, tags, index, files, found) ==
            Verifies(tools, repository, s, tags, index, files, found)
  {
    hide Verified, DistinctFiles, SdkTag, AssetsOf;
  }

  lemma CallsAre(s: Remote, files: seq<(string, Bytes)>, found: Option<nat>)
    ensures found.Some? && found.value in s.releases ==>
        DraftCalls(s, files, found) == |s.releases[found.value].assets| + |files| + 1
    ensures found.None? ==> DraftCalls(s, files, found) == |files| + 2
  {
  }

  lemma DraftedStops(fuse: nat, calls: nat, verifies: bool, takesEffect: bool)
    ensures fuse + 1 < calls || (fuse < calls && verifies) ==>
        Drafted(fuse, calls, verifies, takesEffect, Some(Stopped))
    ensures fuse >= calls && verifies && takesEffect ==> Drafted(fuse, calls, verifies, takesEffect, None)
  {
  }

  lemma DraftedRefused(fuse: nat, calls: nat, verifies: bool, takesEffect: bool, verdict: Verdict)
    requires verdict.Refused?
    ensures (if verifies then fuse >= calls && !takesEffect else fuse + 1 >= calls) ==>
        Drafted(fuse, calls, verifies, takesEffect, Some(verdict))
  {
  }

  lemma ReadyFillable(tools: Tools, s: Remote, files: seq<(string, Bytes)>, tag: string, found: Option<nat>, id: nat,
                      releases: map<nat, Release>)
    requires Ready(s, files, tag, found) && (found.Some? ==> id == found.value) && (found.None? ==> id !in s.releases)
    requires found.Some? ==> id in s.releases && releases == s.releases[id := s.releases[id].(assets := [])]
    requires found.None? ==> releases == s.releases[id := Release(tag, true, true, [])]
    ensures Fillable(releases, tag, id, files) && id in releases
    ensures releases[id].(assets := AssetsOf(tools, files, s.nextAsset)) == FilledDraft(tools, s, files, tag, found)
  {
    hide AssetsOf, DistinctFiles;
  }

  lemma FitsIs(tools: Tools, repository: string, s: Remote, tags: map<string, Sha>, index: Index,
               files: seq<(string, Bytes)>, found: Option<nat>, r: Release)
    requires r == FilledDraft(tools, s, files, SdkTag(index.commit), found)
    ensures Verifies(tools, repository, s, tags, index, files, found) <==>
        Verified(tools, repository, tags, r, index, true)
  {
    hide FilledDraft, Verified, SdkTag;
  }

  /** The snapshot tag names another commit. */
  predicate Elsewhere(tags: map<string, Sha>, commit: Sha)
  {
    SdkTag(commit) in tags && tags[SdkTag(commit)] != commit
  }

  function Tagged(tags: map<string, Sha>, commit: Sha): map<string, Sha>
  {
    tags[SdkTag(commit) := commit]
  }

  function TagCalls(tags: map<string, Sha>, commit: Sha): nat
  {
    if SdkTag(commit) in tags then 0 else 1
  }

  /** The verdict of a run whose snapshot, `calls` calls after the tag is there, is published or
      fails: from there on `latest-green` decides. A snapshot published earlier takes no call. */
  ghost predicate Settled(compare: (Sha, Sha) -> Comparison, tags: map<string, Sha>, commit: Sha, fuse: nat, calls: nat,
                          verifies: bool, takesEffect: bool, verdict: Verdict)
  {
    var left := fuse - TagCalls(tags, commit);
    if left < 0 then verdict.Stopped?
    else if left >= calls && verifies && takesEffect
    then Judged(compare, Get(tags, LATEST_GREEN), commit, left - calls, verdict)
    else Drafted(left, calls, verifies, takesEffect, Some(verdict))
  }

  /** When filling and publishing a draft succeeds, is refused, or stops, by the calls it takes:
      verification comes before the last call, the check that it took effect after it. */
  ghost predicate Drafted(fuse: nat, calls: nat, verifies: bool, takesEffect: bool, failure: Option<Verdict>)
  {
    && (failure.None? <==> fuse >= calls && verifies && takesEffect)
    && (failure.Some? && failure.value.Refused? <==>
          if verifies then fuse >= calls && !takesEffect else fuse + 1 >= calls)
    && (failure.Some? && !failure.value.Refused? ==> failure.value.Stopped?)
  }

  // ----- clearing and filling a draft -----

  function Deleted(releases: map<nat, Release>, asset: nat): map<nat, Release>
  {
    map r | r in releases :: releases[r].(assets := Without(releases[r].assets, asset))
  }

  function WithAsset(r: Release, a: Asset): Release
  {
    r.(assets := r.assets + [a])
  }

  function DigestFor(tools: Tools, bytes: Bytes): Option<string>
  {
    if tools.digests then Some("sha256:" + tools.sha256(bytes)) else None
  }

  /** The files as the remote holds them. */
  function AssetsOf(tools: Tools, files: seq<(string, Bytes)>, first: nat): (r: seq<Asset>)
    ensures |r| == |files| && forall i :: 0 <= i < |r| ==>
      r[i] == Asset(first + i, files[i].0, files[i].1, DigestFor(tools, files[i].1))
  {
    seq(|files|, i requires 0 <= i < |files| => Asset(first + i, files[i].0, files[i].1, DigestFor(tools, files[i].1)))
  }

  ghost predicate DistinctFiles(files: seq<(string, Bytes)>)
  {
    forall i, j :: 0 <= i < j < |files| ==> files[i].0 != files[j].0
  }

  /** The one release of its tag. */
  ghost predicate Sole(releases: map<nat, Release>, tag: string, id: nat)
  {
    id in releases && releases[id].tag == tag && forall r :: r in releases && releases[r].tag == tag ==> r == id
  }

  /** The one release of its tag, empty, and files that can all be put there. */
  ghost predicate Fillable(releases: map<nat, Release>, tag: string, id: nat, files: seq<(string, Bytes)>)
  {
    Sole(releases, tag, id) && releases[id].assets == [] && DistinctFiles(files)
  }

  lemma NoAssets(tools: Tools, files: seq<(string, Bytes)>, first: nat)
    ensures AssetsOf(tools, files[..0], first) == []
  {
  }

  lemma {:induction false} FindAbsent(assets: seq<Asset>, name: string)
    requires forall i :: 0 <= i < |assets| ==> assets[i].name != name
    ensures Find(assets, name).None?
    decreases |assets|
  {
    if assets != [] { FindAbsent(assets[1..], name); }
  }

  lemma NextFile(tools: Tools, first: map<nat, Release>, tag: string, id: nat, files: seq<(string, Bytes)>, k: nat,
                 n0: nat)
    requires id in first && Sole(first, tag, id) && first[id].assets == [] && DistinctFiles(files) && k < |files|
    ensures var now := first[id := first[id].(assets := AssetsOf(tools, files[..k], n0))];
      && Sole(now, tag, id) && Find(now[id].assets, files[k].0).None?
      && WithAsset(now[id], Asset(n0 + k, files[k].0, files[k].1, DigestFor(tools, files[k].1))) ==
           first[id].(assets := AssetsOf(tools, files[..k + 1], n0))
  {
    hide DigestFor, Find;
    var assets := AssetsOf(tools, files[..k], n0);
    FindAbsent(assets, files[k].0);
    var a := Asset(n0 + k, files[k].0, files[k].1, DigestFor(tools, files[k].1));
    assert assets + [a] == AssetsOf(tools, files[..k + 1], n0);
  }

  /** Of the draft only assets from `k` on are left, of the other releases everything. */
  ghost predicate OnlyLeft(first: map<nat, Release>, releases: map<nat, Release>, id: nat, assets: seq<Asset>, k: nat)
  {
    && first.Keys == releases.Keys && id in first && k <= |assets|
    && (forall r :: r in first && r != id ==> releases[r] == first[r])
    && releases[id] == first[id].(assets := releases[id].assets)
    && (forall a :: a in releases[id].assets ==> exists j :: k <= j < |assets| && assets[j].id == a.id)
  }

  lemma AllLeft(releases: map<nat, Release>, id: nat)
    requires id in releases
    ensures OnlyLeft(releases, releases, id, releases[id].assets, 0)
  {
  }

  lemma OneLess(s: Remote, releases: map<nat, Release>, id: nat, assets: seq<Asset>, k: nat, tools: Tools,
                repository: string)
    requires Green(tools, repository, s) && id in s.releases && assets == s.releases[id].assets && k < |assets|
    requires OnlyLeft(s.releases, releases, id, assets, k)
    ensures OnlyLeft(s.releases, Deleted(releases, assets[k].id), id, assets, k + 1)
  {
    hide Without, Published;
    var after := Deleted(releases, assets[k].id);
    assert HasAsset(s.releases[id], assets[k].id);
    forall r | r in s.releases && r != id
      ensures after[r] == s.releases[r]
    {
      assert !HasAsset(s.releases[r], assets[k].id);
      WithoutAbsent(s.releases[r].assets, assets[k].id);
    }
    forall a | a in after[id].assets
      ensures exists j :: k + 1 <= j < |assets| && assets[j].id == a.id
    {
      var j :| k <= j < |assets| && assets[j].id == a.id;
      assert j != k;
    }
  }

  lemma NoneLeft(first: map<nat, Release>, releases: map<nat, Release>, id: nat, assets: seq<Asset>)
    requires OnlyLeft(first, releases, id, assets, |assets|)
    ensures releases == first[id := first[id].(assets := [])]
  {
    FirstIn(releases[id].assets);
    assert releases[id].assets == [];
  }

  lemma FirstIn<T>(s: seq<T>)
    ensures s != [] ==> s[0] in s
  {
  }

  lemma SameReleases(a: Remote, b: Remote)
    requires AssetIds(a) && b.releases == a.releases && b.nextRelease == a.nextRelease && b.nextAsset == a.nextAsset
    ensures AssetIds(b)
  {
  }

  function Without(assets: seq<Asset>, id: nat): (r: seq<Asset>)
    ensures forall a :: a in r <==> a in assets && a.id != id
  {
    if assets == [] then [] else (if assets[0].id == id then [] else [assets[0]]) + Without(assets[1..], id)
  }

  lemma {:induction false} WithoutAbsent(assets: seq<Asset>, id: nat)
    requires forall i :: 0 <= i < |assets| ==> assets[i].id != id
    ensures Without(assets, id) == assets
    decreases |assets|
  {
    if assets != [] { WithoutAbsent(assets[1..], id); }
  }

  /** The releases are the same but for assets that have gone. */
  ghost predicate SameShells(a: map<nat, Release>, b: map<nat, Release>)
  {
    && a.Keys == b.Keys
    && (forall r :: r in a ==> b[r] == a[r].(assets := b[r].assets))
    && (forall r, id: nat :: r in a && HasAsset(b[r], id) ==> HasAsset(a[r], id))
  }

  lemma ShellsSelf(a: map<nat, Release>)
    ensures SameShells(a, a)
  {
  }

  lemma ShellsTransitive(a: map<nat, Release>, b: map<nat, Release>, c: map<nat, Release>)
    requires SameShells(a, b) && SameShells(b, c)
    ensures SameShells(a, c)
  {
    hide HasAsset;
  }

  /** An asset of a draft is in no other release. */
  lemma OnlyHere(a: Remote, b: Remote, id: nat, asset: nat, tools: Tools, repository: string)
    requires Green(tools, repository, a) && SameShells(a.releases, b.releases)
    requires id in a.releases && a.releases[id].draft && HasAsset(a.releases[id], asset)
    ensures forall r :: r in b.releases && HasAsset(b.releases[r], asset) ==> b.releases[r].draft
  {
    hide HasAsset, Published;
  }

  lemma Shrunk(a: Remote, b: Remote, asset: nat)
    requires AssetIds(a) && b == a.(releases := b.releases)
    requires b.releases == map r | r in a.releases :: a.releases[r].(assets := Without(a.releases[r].assets, asset))
    requires forall r :: r in a.releases && HasAsset(a.releases[r], asset) ==> a.releases[r].draft
    ensures AssetIds(b) && SameShells(a.releases, b.releases)
    ensures forall r :: r in a.releases && !a.releases[r].draft ==> b.releases[r] == a.releases[r]
  {
    hide Without;
    forall r, id: nat | r in a.releases && HasAsset(b.releases[r], id)
      ensures HasAsset(a.releases[r], id)
    {
      var i :| 0 <= i < |b.releases[r].assets| && b.releases[r].assets[i].id == id;
      assert b.releases[r].assets[i] in a.releases[r].assets;
    }
    forall r | r in a.releases && !a.releases[r].draft
      ensures b.releases[r] == a.releases[r]
    {
      assert !HasAsset(a.releases[r], asset);
      WithoutAbsent(a.releases[r].assets, asset);
    }
  }

  lemma Grown(a: Remote, b: Remote, id: nat, asset: Asset)
    requires AssetIds(a) && id in a.releases && asset.id == a.nextAsset && b.nextAsset == a.nextAsset + 1
    requires b.nextRelease == a.nextRelease
    requires b.releases == a.releases[id := a.releases[id].(assets := a.releases[id].assets + [asset])]
    ensures AssetIds(b)
  {
    forall r, x: nat | r in b.releases && HasAsset(b.releases[r], x)
      ensures HasAsset(a.releases[r], x) || (r == id && x == a.nextAsset)
    {
      var i :| 0 <= i < |b.releases[r].assets| && b.releases[r].assets[i].id == x;
      if r == id && i < |a.releases[id].assets| { assert a.releases[id].assets[i].id == x; }
    }
  }

  lemma Relabelled(a: Remote, b: Remote, id: nat)
    requires AssetIds(a) && id in a.releases && b == a.(releases := b.releases)
    requires b.releases == a.releases[id := a.releases[id].(draft := false, prerelease := true)]
    ensures AssetIds(b)
  {
    forall r, x: nat | r in b.releases && HasAsset(b.releases[r], x)
      ensures HasAsset(a.releases[r], x)
    {
      var i :| 0 <= i < |b.releases[r].assets| && b.releases[r].assets[i].id == x;
      assert a.releases[r].assets[i].id == x;
    }
  }

  lemma Moved(tools: Tools, repository: string, graph: Graph, compare: (Sha, Sha) -> Comparison, a: Remote, b: Remote,
              commit: Sha)
    requires Green(tools, repository, a) && Faithful(graph, compare) && Published(tools, repository, a, commit)
    requires b == a.(tags := a.tags[LATEST_GREEN := commit])
    requires LATEST_GREEN in a.tags ==> compare(a.tags[LATEST_GREEN], commit) == Ahead
    ensures Green(tools, repository, b) && Safe(graph, a, b)
  {
    hide Published, AssetIds, Descends;
    PublishedKept(tools, repository, a, b, commit);
    SameReleases(a, b);
  }

  lemma IndexTag(index: Index, repository: string, commit: Sha)
    requires ValidIndex(index, repository, commit)
    ensures index.tag == SdkTag(commit)
  {
    hide ValidAsset, SdkTag, ValidVersion;
  }

  lemma IsPublished(tools: Tools, repository: string, s: Remote, id: nat, index: Index, draft: bool)
    requires id in s.releases && !draft && Verified(tools, repository, s.tags, s.releases[id], index, draft)
    ensures Published(tools, repository, s, index.commit)
  {
    hide Sound, IndexOf;
  }

  lemma VerifiedDraft(tools: Tools, repository: string, tags: map<string, Sha>, r: Release, index: Index)
    requires Verified(tools, repository, tags, r, index, true)
    ensures r.draft && Sound(tools, repository, tags, r, index.commit)
  {
    hide Sound, IndexOf;
  }

  /** Publishing a verified draft changes nothing that was verified. */
  lemma PublishedDraft(tools: Tools, repository: string, a: Remote, b: Remote, id: nat, index: Index)
    requires id in a.releases && Sound(tools, repository, a.tags, a.releases[id], index.commit) && b.tags == a.tags
    requires b.releases == a.releases[id := a.releases[id].(draft := false, prerelease := true)]
    ensures Published(tools, repository, b, index.commit)
  {
    hide ValidIndex, ArchiveMatches, DistinctNames, NamesOf, Expected, SdkTag;
    assert IndexOf(tools, b.releases[id]) == IndexOf(tools, a.releases[id]);
    assert Sound(tools, repository, b.tags, b.releases[id], index.commit);
  }

  lemma ShellsKeep(a: map<nat, Release>, b: map<nat, Release>, tag: string)
    requires SameShells(a, b) && forall id :: id in a && a[id].tag == tag ==> a[id].draft
    ensures a.Keys == b.Keys && forall id :: id in b && b[id].tag == tag ==> b[id].draft
  {
    hide HasAsset;
  }
}

/** The device-dump store: files on disk, one first-in-first-out index per profile, and eviction
    of the oldest dumps under the profile's byte budget. The specification names files by plain
    paths; the index of the store spells them as they were built or listed. */
module DumpStore {
  import opened Text
  import opened DumpPaths

  /** Sizes of the files under the log directory, by plain path. */
  type Files = map<string, nat>

  datatype DumpEntry = DumpEntry(path: string, ts: int)

  type Queue = seq<DumpEntry>

  datatype Storage = Storage(budgetMB: nat, filePrefix: string)

  datatype DumpProfile = DumpProfile(name: string, section: string, storage: Storage)

  datatype Section = Section(id: string, components: seq<string>)

  /** How writing one dump ends; bytes is the size of the serialized envelope. */
  datatype WriteOutcome =
    | NoDirectory | CannotOpen | SerializeFails(partial: nat) | StreamFails | RenameFails
    | Written(bytes: nat)

  datatype Contents = Contents(index: map<string, Queue>, files: Files)

  // ---------------------------------------------------------------- specification

  function QueueOf(index: map<string, Queue>, profile: string): Queue {
    if profile in index then index[profile] else []
  }

  /** fs::remove with its errors swallowed; stuck holds the paths it fails on. */
  function Remove(files: Files, path: string, stuck: set<string>): Files {
    if path in stuck then files else files - {path}
  }

  function SizeOf(files: Files, path: string): nat {
    if path in files then files[path] else 0
  }

  function UsedBytes(queue: Queue, files: Files): nat {
    if queue == [] then 0 else UsedBytes(queue[..|queue| - 1], files) + SizeOf(files, queue[|queue| - 1].path)
  }

  /** Which dumps a queue holds, whatever the spelling of its paths. */
  function PlainQueue(queue: Queue): Queue {
    seq(|queue|, i requires 0 <= i < |queue| => DumpEntry(Plain(queue[i].path), queue[i].ts))
  }

  function PlainIndex(index: map<string, Queue>): (plain: map<string, Queue>)
    ensures plain.Keys == index.Keys
  {
    map name | name in index :: PlainQueue(index[name])
  }

  lemma QueueAt(index: map<string, Queue>, name: string)
    ensures QueueOf(PlainIndex(index), name) == PlainQueue(QueueOf(index, name))
  {
    assert PlainQueue([]) == [];
  }

  /** Replacing one queue replaces its plain form. */
  lemma OneReplaced(index: map<string, Queue>, name: string, queue: Queue)
    ensures PlainIndex(index[name := queue]) == PlainIndex(index)[name := PlainQueue(queue)]
  {
  }

  lemma PlainSlices(queue: Queue, e: DumpEntry, k: nat)
    requires k <= |queue|
    ensures PlainQueue(queue[..k]) == PlainQueue(queue)[..k] && PlainQueue(queue[k..]) == PlainQueue(queue)[k..]
    ensures PlainQueue(queue + [e]) == PlainQueue(queue) + [DumpEntry(Plain(e.path), e.ts)]
  {
  }

  /** BudgetMB * 1024UL * 1024UL in size_t arithmetic. */
  function BudgetBytes(budgetMB: nat): nat {
    (budgetMB * 0x10_0000) % 0x1_0000_0000_0000_0000
  }

  /** Drop the oldest entry, with its file, until the rest fits. */
  function Evict(queue: Queue, files: Files, budget: nat, stuck: set<string>): (Queue, Files) {
    if queue == [] || UsedBytes(queue, files) <= budget then (queue, files)
    else Evict(queue[1..], Remove(files, queue[0].path, stuck), budget, stuck)
  }

  lemma {:induction false} EvictOnlyRemoves(queue: Queue, files: Files, budget: nat, stuck: set<string>)
    ensures Evict(queue, files, budget, stuck).1.Keys <= files.Keys
    decreases |queue|
  {
    if queue != [] && UsedBytes(queue, files) > budget {
      EvictOnlyRemoves(queue[1..], Remove(files, queue[0].path, stuck), budget, stuck);
    }
  }

  function TempPath(path: string): string {
    path + ".tmp"
  }

  /** What the write itself leaves on disk. */
  function FilesAfterWrite(files: Files, path: string, outcome: WriteOutcome, stuck: set<string>): Files {
    match outcome
    case NoDirectory => Remove(files, TempPath(path), stuck)
    case CannotOpen => files
    case SerializeFails(partial) => files[TempPath(path) := partial]
    case StreamFails => Remove(files[TempPath(path) := 0], TempPath(path), stuck)
    case RenameFails => Remove(files[TempPath(path) := 0], TempPath(path), stuck)
    case Written(bytes) => (files - {TempPath(path)})[path := bytes]
  }

  function Stored(c: Contents, profile: DumpProfile, path: string, ts: int, outcome: WriteOutcome,
                  stuck: set<string>): Contents {
    var files := FilesAfterWrite(c.files, path, outcome, stuck);
    if !outcome.Written? then c.(files := files)
    else
      var (queue, left) := Evict(QueueOf(c.index, profile.name) + [DumpEntry(path, ts)], files,
                                 BudgetBytes(profile.storage.budgetMB), stuck);
      Contents(c.index[profile.name := queue], left)
  }

  // ---------------------------------------------------------------- the startup scan

  /** The regular files of one boot directory, in the order the directory iterator gives them. */
  datatype BootDir = BootDir(name: string, files: seq<string>)

  datatype FileAt = FileAt(dir: string, name: string)

  function FilesIn(dir: string, names: seq<string>): seq<FileAt> {
    seq(|names|, i requires 0 <= i < |names| => FileAt(dir, names[i]))
  }

  function AllFiles(tree: seq<BootDir>): seq<FileAt> {
    if tree == [] then []
    else AllFiles(tree[..|tree| - 1]) + FilesIn(tree[|tree| - 1].name, tree[|tree| - 1].files)
  }

  predicate IsDumpName(name: string, prefix: string) {
    StartsWith(name, prefix) && EndsWith(name, ".dat")
  }

  function EntryAt(base: string, f: FileAt): DumpEntry {
    var path := ListedPath(base, f.dir, f.name);
    DumpEntry(Plain(path), ExtractTimestamp(path))
  }

  /** The dumps among some files whose names start with the prefix. */
  function Matching(base: string, files: seq<FileAt>, prefix: string): Queue {
    if files == [] then []
    else
      var n := |files| - 1;
      if IsDumpName(files[n].name, prefix) then Matching(base, files[..n], prefix) + [EntryAt(base, files[n])]
      else Matching(base, files[..n], prefix)
  }

  function ComponentsOf(sections: seq<Section>, id: string): seq<string> {
    if sections == [] then []
    else
      var n := |sections| - 1;
      if sections[n].id == id then ComponentsOf(sections[..n], id) + sections[n].components
      else ComponentsOf(sections[..n], id)
  }

  /** Everything the scan finds for a profile, component by component. */
  function Found(base: string, files: seq<FileAt>, profile: DumpProfile, components: seq<string>): Queue {
    if components == [] then []
    else
      var n := |components| - 1;
      Found(base, files, profile, components[..n])
      + Matching(base, files, NamePrefix(profile.section, components[n], profile.storage.filePrefix))
  }

  predicate SortedByTime(queue: Queue) {
    forall i, j :: 0 <= i < j < |queue| ==> queue[i].ts <= queue[j].ts
  }

  // ---------------------------------------------------------------- the store

  class DeviceDumpStore {
    const basePath: string
    var dumpIndex: map<string, Queue>
    var files: Files

    ghost function Value(): Contents
      reads this
    {
      Contents(PlainIndex(dumpIndex), files)
    }

    constructor (basePath: string, files: Files)
      ensures Value() == Contents(map[], files) && this.basePath == basePath
    {
      this.basePath, this.dumpIndex, this.files := basePath, map[], files;
    }

    function BuildStoragePath(bootDir: string, profile: DumpProfile, component: string, timestamp: int): string {
      PathIn(basePath, bootDir, FileName(profile.section, component, profile.storage.filePrefix, timestamp))
    }

    method ComputeUsedBytes(profileName: string) returns (total: nat)
      ensures total == UsedBytes(PlainQueue(QueueOf(dumpIndex, profileName)), files)
    {
      hide Plain;
      if profileName !in dumpIndex {
        return 0;
      }
      var queue := dumpIndex[profileName];
      total := 0;
      ghost var plain := PlainQueue(queue);
      for i := 0 to |queue|
        invariant total == UsedBytes(plain[..i], files)
      {
        assert plain[..i + 1][..i] == plain[..i];
        var file := Plain(queue[i].path);
        if file in files {
          total := total + files[file];
        }
      }
      assert plain[..|queue|] == plain;
    }

    method EnforceEviction(profileName: string, storage: Storage, stuck: set<string>)
      modifies this
      ensures profileName !in old(dumpIndex) ==> Value() == old(Value())
      ensures profileName in old(dumpIndex) ==>
                var (queue, left) := Evict(PlainIndex(old(dumpIndex))[profileName], old(files),
                                           BudgetBytes(storage.budgetMB), stuck);
                Value() == Contents(PlainIndex(old(dumpIndex))[profileName := queue], left)
    {
      hide Plain, PlainQueue, Evict;
      if profileName !in dumpIndex {
        return;
      }
      var budget := BudgetBytes(storage.budgetMB);
      ghost var was := PlainIndex(dumpIndex)[profileName];
      var used := ComputeUsedBytes(profileName);
      while dumpIndex[profileName] != [] && used > budget
        invariant profileName in dumpIndex
        invariant dumpIndex == old(dumpIndex)[profileName := dumpIndex[profileName]]
        invariant used == UsedBytes(PlainQueue(dumpIndex[profileName]), files)
        invariant Evict(PlainQueue(dumpIndex[profileName]), files, budget, stuck) == Evict(was, old(files), budget,
                                                                                           stuck)
        decreases |dumpIndex[profileName]|
      {
        var queue := dumpIndex[profileName];
        var file := Plain(queue[0].path);
        PlainRest(queue);
        EvictOne(PlainQueue(queue), files, budget, stuck);
        if file !in stuck {
          files := files - {file};
        }
        dumpIndex := dumpIndex[profileName := queue[1..]];
        used := ComputeUsedBytes(profileName);
      }
      PlainNothing(dumpIndex[profileName]);
      EvictOne(PlainQueue(dumpIndex[profileName]), files, budget, stuck);
      OneReplaced(old(dumpIndex), profileName, dumpIndex[profileName]);
    }

    static lemma PlainRest(queue: Queue)
      requires queue != []
      ensures var plain := PlainQueue(queue);
              plain != [] && plain[0].path == Plain(queue[0].path) && plain[1..] == PlainQueue(queue[1..])
    {
    }

    /** Evict unfolded once. */
    static lemma EvictOne(queue: Queue, files: Files, budget: nat, stuck: set<string>)
      ensures Evict(queue, files, budget, stuck)
           == if queue == [] || UsedBytes(queue, files) <= budget then (queue, files)
              else Evict(queue[1..], Remove(files, queue[0].path, stuck), budget, stuck)
    {
    }

    static lemma PlainNothing(queue: Queue)
      ensures queue == [] <==> PlainQueue(queue) == []
    {
    }

    method Store(profile: DumpProfile, bootDir: string, component: string, timestamp: int,
                 outcome: WriteOutcome, stuck: set<string>) returns (ok: bool)
      modifies this
      ensures ok <==> outcome.Written?
      ensures Value() == Stored(old(Value()), profile, Plain(BuildStoragePath(bootDir, profile, component, timestamp)),
                                timestamp, outcome, stuck)
    {
      hide Plain, Evict, PlainQueue;
      var finalPath := BuildStoragePath(bootDir, profile, component, timestamp);
      var path, tempPath := Plain(finalPath), Plain(finalPath + ".tmp");
      PlainTail(finalPath, ".tmp");
      match outcome {
        case NoDirectory =>
          files := Remove(files, tempPath, stuck);
          return false;
        case CannotOpen =>
          return false;
        case SerializeFails(partial) =>
          files := files[tempPath := partial];
          return false;
        case StreamFails =>
          files := files[tempPath := 0];
          files := Remove(files, tempPath, stuck);
          return false;
        case RenameFails =>
          files := files[tempPath := 0];
          files := Remove(files, tempPath, stuck);
          return false;
        case Written(bytes) =>
          files := files[tempPath := bytes];
          files := files - {tempPath};
          files := files[path := bytes];
      }
      assert files == FilesAfterWrite(old(files), path, outcome, stuck);
      var queue, e := QueueOf(dumpIndex, profile.name), DumpEntry(finalPath, timestamp);
      QueueAt(dumpIndex, profile.name);
      PlainSlices(queue, e, 0);
      OneReplaced(dumpIndex, profile.name, queue + [e]);
      dumpIndex := dumpIndex[profile.name := queue + [e]];
      EnforceEviction(profile.name, profile.storage, stuck);
      ok := true;
    }

    /** The directory loops of the scan for one component. */
    method ScanComponent(tree: seq<BootDir>, prefix: string) returns (found: Queue)
      ensures PlainQueue(found) == Matching(basePath, AllFiles(tree), prefix)
    {
      hide Matching, IsDumpName, ExtractTimestamp, ListedPath, PlainQueue, Plain;
      found := [];
      NoneMatch(basePath, prefix);
      for d := 0 to |tree|
        invariant PlainQueue(found) == Matching(basePath, AllFiles(tree[..d]), prefix)
      {
        var dir := tree[d];
        assert tree[..d + 1][..d] == tree[..d];
        ghost var before := AllFiles(tree[..d]);
        assert before + FilesIn(dir.name, dir.files[..0]) == before;
        for f := 0 to |dir.files|
          invariant PlainQueue(found) == Matching(basePath, before + FilesIn(dir.name, dir.files[..f]), prefix)
        {
          var name := dir.files[f];
          MatchOneMore(basePath, before + FilesIn(dir.name, dir.files[..f]), FileAt(dir.name, name), prefix);
          assert before + FilesIn(dir.name, dir.files[..f + 1])
              == (before + FilesIn(dir.name, dir.files[..f])) + [FileAt(dir.name, name)];
          if StartsWith(name, prefix) && EndsWith(name, ".dat") {
            var path := ListedPath(basePath, dir.name, name);
            PlainSlices(found, DumpEntry(path, ExtractTimestamp(path)), 0);
            found := found + [DumpEntry(path, ExtractTimestamp(path))];
          }
        }
        assert dir.files[..|dir.files|] == dir.files;
      }
      assert tree[..|tree|] == tree;
    }

    static lemma NoneMatch(base: string, prefix: string)
      ensures Matching(base, [], prefix) == [] == PlainQueue([])
    {
    }

    static lemma MatchOneMore(base: string, files: seq<FileAt>, f: FileAt, prefix: string)
      ensures Matching(base, files + [f], prefix)
           == Matching(base, files, prefix)
              + if StartsWith(f.name, prefix) && EndsWith(f.name, ".dat") then [EntryAt(base, f)] else []
    {
      assert (files + [f])[..|files|] == files;
      assert Matching(base, files, prefix) + [] == Matching(base, files, prefix);
    }

    /** std::sort by timestamp: some sorted rearrangement. */
    static method SortByTime(queue: Queue) returns (sorted: Queue)
      ensures multiset(PlainQueue(sorted)) == multiset(PlainQueue(queue)) && SortedByTime(PlainQueue(sorted))
    {
      hide Plain, PlainQueue;
      sorted := [];
      PlainEmpty();
      ghost var plain := PlainQueue(queue);
      assert |plain| == |queue| by { PlainEntries(queue); }
      for i := 0 to |queue|
        invariant multiset(PlainQueue(sorted)) == multiset(plain[..i]) && SortedByTime(PlainQueue(sorted))
      {
        assert plain[..i + 1] == plain[..i] + [plain[i]];
        PlainEntries(queue);
        sorted := InsertByTime(sorted, queue[i]);
      }
      assert plain[..|queue|] == plain;
    }

    static lemma PlainEntries(queue: Queue)
      ensures |PlainQueue(queue)| == |queue|
      ensures forall i :: 0 <= i < |queue| ==> PlainQueue(queue)[i] == DumpEntry(Plain(queue[i].path), queue[i].ts)
    {
    }

    static lemma PlainEmpty()
      ensures PlainQueue([]) == []
    {
    }

    static method InsertByTime(queue: Queue, e: DumpEntry) returns (r: Queue)
      requires SortedByTime(PlainQueue(queue))
      ensures multiset(PlainQueue(r)) == multiset(PlainQueue(queue)) + multiset{DumpEntry(Plain(e.path), e.ts)}
      ensures SortedByTime(PlainQueue(r))
    {
      hide Plain;
      var k := |queue|;
      while k > 0 && queue[k - 1].ts > e.ts
        invariant 0 <= k <= |queue|
        invariant forall j :: k <= j < |queue| ==> e.ts < queue[j].ts
      {
        k := k - 1;
      }
      r := queue[..k] + [e] + queue[k..];
      ghost var plain, x := PlainQueue(queue), DumpEntry(Plain(e.path), e.ts);
      assert PlainQueue(r) == plain[..k] + [x] + plain[k..];
      InsertedElements(plain, x, k);
      InsertedInOrder(plain, x, k);
    }

    static lemma InsertedElements(queue: Queue, e: DumpEntry, k: nat)
      requires k <= |queue|
      ensures multiset(queue[..k] + [e] + queue[k..]) == multiset(queue) + multiset{e}
    {
      assert queue == queue[..k] + queue[k..];
    }

    static lemma InsertedInOrder(queue: Queue, e: DumpEntry, k: nat)
      requires SortedByTime(queue) && k <= |queue|
      requires forall j :: k <= j < |queue| ==> e.ts < queue[j].ts
      requires k > 0 ==> queue[k - 1].ts <= e.ts
      ensures SortedByTime(queue[..k] + [e] + queue[k..])
    {
      var r := queue[..k] + [e] + queue[k..];
      forall i, j | 0 <= i < j < |r| ensures r[i].ts <= r[j].ts {
        var a := if i < k then queue[i] else if i == k then e else queue[i - 1];
        var b := if j < k then queue[j] else if j == k then e else queue[j - 1];
        assert r[i] == a && r[j] == b;
      }
    }

    /** One profile of the scan: sections, components, files, then the sort. */
    method RebuildProfile(profile: DumpProfile, sections: seq<Section>, tree: seq<BootDir>)
      modifies this`dumpIndex
      ensures || PlainIndex(dumpIndex) == PlainIndex(old(dumpIndex))
              || PlainIndex(dumpIndex) == PlainIndex(old(dumpIndex))[profile.name := QueueOf(PlainIndex(dumpIndex),
                                                                                             profile.name)]
      ensures multiset(QueueOf(PlainIndex(dumpIndex), profile.name))
           == multiset(QueueOf(PlainIndex(old(dumpIndex)), profile.name)
                + Found(basePath, AllFiles(tree), profile, ComponentsOf(sections, profile.section)))
      ensures SortedByTime(QueueOf(PlainIndex(dumpIndex), profile.name))
    {
      hide Plain, PlainQueue, Matching, AllFiles, NamePrefix, SortedByTime, PlainIndex;
      var found: Queue := [];
      PlainEmpty();
      for s := 0 to |sections|
        invariant dumpIndex == old(dumpIndex)
        invariant PlainQueue(found) == Found(basePath, AllFiles(tree), profile,
                                             ComponentsOf(sections[..s], profile.section))
      {
        assert sections[..s + 1][..s] == sections[..s];
        if sections[s].id == profile.section {
          var components := sections[s].components;
          ghost var before := ComponentsOf(sections[..s], profile.section);
          assert before + components[..0] == before;
          for c := 0 to |components|
            invariant dumpIndex == old(dumpIndex)
            invariant PlainQueue(found) == Found(basePath, AllFiles(tree), profile, before + components[..c])
          {
            var matched := ScanComponent(tree, NamePrefix(profile.section, components[c], profile.storage.filePrefix));
            ghost var seen := before + components[..c + 1];
            assert seen[..|seen| - 1] == before + components[..c];
            PlainJoins(found, matched);
            found := found + matched;
          }
          assert components[..|components|] == components;
        }
      }
      assert sections[..|sections|] == sections;
      QueueAt(dumpIndex, profile.name);
      PlainJoins(QueueOf(dumpIndex, profile.name), found);
      var queue := QueueOf(dumpIndex, profile.name) + found;
      if queue != [] || profile.name in dumpIndex {
        var sorted := SortByTime(queue);
        OneReplaced(dumpIndex, profile.name, sorted);
        dumpIndex := dumpIndex[profile.name := sorted];
      } else {
        NothingSorted();
      }
    }

    static lemma NothingSorted()
      ensures SortedByTime([]) && PlainQueue([]) == []
    {
    }

    static lemma PlainJoins(a: Queue, b: Queue)
      ensures PlainQueue(a + b) == PlainQueue(a) + PlainQueue(b)
    {
    }

    /** rebuildIndex(): with distinct profile names every queue is a sorted rearrangement of what
        the scan finds for its profile. */
    method RebuildIndex(profiles: seq<DumpProfile>, sections: seq<Section>, tree: seq<BootDir>)
      requires dumpIndex == map[]
      requires forall i, j :: 0 <= i < j < |profiles| ==> profiles[i].name != profiles[j].name
      modifies this`dumpIndex
      ensures forall i :: 0 <= i < |profiles| ==> Rebuilt(PlainIndex(dumpIndex), basePath, profiles[i], sections, tree)
    {
      hide Rebuilt, SortedByTime, PlainQueue;
      for i := 0 to |profiles|
        invariant forall j :: i <= j < |profiles| ==> profiles[j].name !in PlainIndex(dumpIndex)
        invariant forall j :: 0 <= j < i ==> Rebuilt(PlainIndex(dumpIndex), basePath, profiles[j], sections, tree)
      {
        ghost var before := PlainIndex(dumpIndex);
        RebuildProfile(profiles[i], sections, tree);
        RebuiltStays(before, PlainIndex(dumpIndex), basePath, profiles, i, sections, tree);
      }
    }
  }

  lemma RebuiltStays(before: map<string, Queue>, index: map<string, Queue>, base: string, profiles: seq<DumpProfile>,
                     i: nat,
                     sections: seq<Section>, tree: seq<BootDir>)
    requires i < |profiles|
    requires forall j, k :: 0 <= j < k < |profiles| ==> profiles[j].name != profiles[k].name
    requires index == before || index == before[profiles[i].name := QueueOf(index, profiles[i].name)]
    requires forall j :: i <= j < |profiles| ==> profiles[j].name !in before
    requires forall j :: 0 <= j < i ==> Rebuilt(before, base, profiles[j], sections, tree)
    requires SortedByTime(QueueOf(index, profiles[i].name))
    requires multiset(QueueOf(index, profiles[i].name)) == multiset(QueueOf(before, profiles[i].name)
               + Found(base, AllFiles(tree), profiles[i], ComponentsOf(sections, profiles[i].section)))
    ensures forall j :: i < j < |profiles| ==> profiles[j].name !in index
    ensures forall j :: 0 <= j <= i ==> Rebuilt(index, base, profiles[j], sections, tree)
  {
    hide Found, AllFiles, ComponentsOf, SortedByTime;
    var found := Found(base, AllFiles(tree), profiles[i], ComponentsOf(sections, profiles[i].section));
    assert [] + found == found;
    forall j | 0 <= j <= i ensures Rebuilt(index, base, profiles[j], sections, tree) {
      assert j < i ==> QueueOf(index, profiles[j].name) == QueueOf(before, profiles[j].name);
    }
  }

  ghost predicate Rebuilt(index: map<string, Queue>, base: string, profile: DumpProfile, sections: seq<Section>,
                          tree: seq<BootDir>) {
    var queue := QueueOf(index, profile.name);
    && multiset(queue) == multiset(Found(base, AllFiles(tree), profile, ComponentsOf(sections, profile.section)))
    && SortedByTime(queue)
  }
}

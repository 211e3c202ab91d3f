/** Runs of the dump store: what each profile's queue and the disk hold after any sequence of
    successful stores. */
module DumpHistory {
  import opened Text
  import opened DumpPaths
  import opened DumpStore

  /** One successful store. */
  datatype StoreStep = StoreStep(profile: DumpProfile, path: string, ts: int, bytes: nat)

  function StoreOne(c: Contents, s: StoreStep): Contents {
    Stored(c, s.profile, s.path, s.ts, Written(s.bytes), {})
  }

  function Run(c: Contents, steps: seq<StoreStep>): Contents {
    if steps == [] then c else StoreOne(Run(c, steps[..|steps| - 1]), steps[|steps| - 1])
  }

  /** The stores of one profile, oldest first. */
  function Of(steps: seq<StoreStep>, name: string): seq<StoreStep> {
    if steps == [] then []
    else
      var n := |steps| - 1;
      if steps[n].profile.name == name then Of(steps[..n], name) + [steps[n]] else Of(steps[..n], name)
  }

  function Entries(h: seq<StoreStep>): Queue {
    seq(|h|, i requires 0 <= i < |h| => DumpEntry(h[i].path, h[i].ts))
  }

  function Total(h: seq<StoreStep>): nat {
    if h == [] then 0 else Total(h[..|h| - 1]) + h[|h| - 1].bytes
  }

  /** The queue is the longest suffix of the store history that fits the budget. */
  ghost predicate LongestSuffix(queue: Queue, h: seq<StoreStep>, budget: nat) {
    exists k: nat :: SuffixFrom(h, budget, k) && queue == Entries(h[k..])
  }

  ghost predicate SuffixFrom(h: seq<StoreStep>, budget: nat, k: nat) {
    Cut(h, budget, k) && Total(h[k..]) <= budget
  }

  /** Nothing is left out that would still fit. */
  ghost predicate Cut(h: seq<StoreStep>, budget: nat, k: nat) {
    k <= |h| && (k > 0 ==> Total(h[k - 1..]) > budget)
  }

  predicate Holds(queue: Queue, path: string) {
    exists i :: 0 <= i < |queue| && queue[i].path == path
  }

  /** Distinct files, one set of storage settings per profile name. */
  ghost predicate WellFormed(steps: seq<StoreStep>) {
    && (forall i :: 0 <= i < |steps| ==> EndsWith(steps[i].path, ".dat"))
    && (forall i, j :: 0 <= i < j < |steps| ==> steps[i].path != steps[j].path)
    && (forall i, j :: 0 <= i < j < |steps| && steps[i].profile.name == steps[j].profile.name ==>
          steps[i].profile == steps[j].profile)
  }

  /** A dump is on disk, with its size, exactly while its entry is queued. */
  ghost predicate FilesMatch(c: Contents, steps: seq<StoreStep>) {
    forall i :: 0 <= i < |steps| ==>
      var s := steps[i];
      && (s.path in c.files <==> Holds(QueueOf(c.index, s.profile.name), s.path))
      && (s.path in c.files ==> c.files[s.path] == s.bytes)
  }

  /** Every profile stored to since step n has the longest suffix of its whole history queued. */
  ghost predicate QueuesFit(c: Contents, steps: seq<StoreStep>, n: nat) {
    forall i :: n <= i < |steps| ==>
      var p := steps[i].profile;
      LongestSuffix(QueueOf(c.index, p.name), Of(steps, p.name), BudgetBytes(p.storage.budgetMB))
  }

  ghost predicate StoredSince(steps: seq<StoreStep>, n: nat, name: string) {
    exists i :: n <= i < |steps| && steps[i].profile.name == name
  }

  // ---------------------------------------------------------------- histories

  lemma {:induction false} TotalOfFirst(h: seq<StoreStep>)
    requires h != []
    ensures Total(h) == h[0].bytes + Total(h[1..])
  {
    if |h| > 1 {
      TotalOfFirst(h[..|h| - 1]);
      assert h[..|h| - 1][1..] == h[1..][..|h[1..]| - 1];
    }
  }

  lemma {:induction false} UsedIsTotal(h: seq<StoreStep>, files: Files)
    requires AllOnDisk(h, files)
    ensures UsedBytes(Entries(h), files) == Total(h)
  {
    if h != [] {
      var n := |h| - 1;
      UsedIsTotal(h[..n], files);
      assert Entries(h)[..n] == Entries(h[..n]);
    }
  }

  lemma {:induction false} MembersOf(steps: seq<StoreStep>, name: string, i: nat) returns (k: nat)
    requires i < |Of(steps, name)|
    ensures k < |steps| && Of(steps, name)[i] == steps[k] && steps[k].profile.name == name
  {
    var n := |steps| - 1;
    if steps[n].profile.name == name && i == |Of(steps[..n], name)| {
      k := n;
    } else {
      k := MembersOf(steps[..n], name, i);
    }
  }

  lemma {:induction false} PositionIn(steps: seq<StoreStep>, k: nat) returns (i: nat)
    requires k < |steps|
    ensures i < |Of(steps, steps[k].profile.name)| && Of(steps, steps[k].profile.name)[i] == steps[k]
  {
    var n := |steps| - 1;
    if k == n {
      i := |Of(steps[..n], steps[k].profile.name)|;
    } else {
      i := PositionIn(steps[..n], k);
    }
  }

  ghost predicate DistinctPaths(h: seq<StoreStep>) {
    forall i, j :: 0 <= i < j < |h| ==> h[i].path != h[j].path
  }

  lemma {:induction false} OfIsDistinct(steps: seq<StoreStep>, name: string)
    requires DistinctPaths(steps)
    ensures DistinctPaths(Of(steps, name))
  {
    if steps != [] {
      var n := |steps| - 1;
      OfIsDistinct(steps[..n], name);
      var h := Of(steps[..n], name);
      forall i | 0 <= i < |h| ensures h[i].path != steps[n].path {
        var k := MembersOf(steps[..n], name, i);
      }
    }
  }

  function PathsOf(h: seq<StoreStep>): set<string> {
    set i | 0 <= i < |h| :: h[i].path
  }

  // ---------------------------------------------------------------- eviction

  lemma PathsOfCons(h: seq<StoreStep>, j: nat)
    requires 0 < j <= |h|
    ensures PathsOf(h[..j]) == {h[0].path} + PathsOf(h[1..][..j - 1])
  {
    var rest := h[1..][..j - 1];
    forall p | p in PathsOf(h[..j]) ensures p in {h[0].path} + PathsOf(rest) {
      var i :| 0 <= i < j && h[..j][i].path == p;
      if i > 0 { assert rest[i - 1].path == p; }
    }
    forall p | p in {h[0].path} + PathsOf(rest) ensures p in PathsOf(h[..j]) {
      if p == h[0].path {
        assert h[..j][0].path == p;
      } else {
        var i :| 0 <= i < |rest| && rest[i].path == p;
        assert h[..j][i + 1].path == p;
      }
    }
  }

  ghost predicate AllOnDisk(h: seq<StoreStep>, files: Files) {
    forall i :: 0 <= i < |h| ==> h[i].path in files && files[h[i].path] == h[i].bytes
  }

  lemma OthersStayOnDisk(h: seq<StoreStep>, files: Files, stuck: set<string>)
    requires h != [] && DistinctPaths(h) && AllOnDisk(h, files)
    ensures DistinctPaths(h[1..]) && AllOnDisk(h[1..], Remove(files, h[0].path, stuck))
  {
    forall i | 0 <= i < |h| - 1 ensures h[1..][i].path == h[i + 1].path != h[0].path {
    }
  }

  lemma SuffixFromTail(h: seq<StoreStep>, budget: nat, k: nat)
    requires h != [] && Total(h) > budget && SuffixFrom(h[1..], budget, k)
    ensures SuffixFrom(h, budget, k + 1)
  {
    assert h[1..][k..] == h[k + 1..];
    if k > 0 {
      assert h[1..][k - 1..] == h[k..];
    } else {
      assert h[0..] == h;
    }
  }

  /** Eviction keeps the longest suffix that fits and deletes the files of the rest; a file that
      cannot be deleted loses its entry all the same and stays behind. */
  lemma {:induction false} EvictKeepsLongestSuffix(h: seq<StoreStep>, files: Files, budget: nat, stuck: set<string>)
    returns (j: nat)
    requires DistinctPaths(h) && AllOnDisk(h, files)
    ensures SuffixFrom(h, budget, j)
    ensures Evict(Entries(h), files, budget, stuck) == (Entries(h[j..]), files - (PathsOf(h[..j]) - stuck))
  {
    hide DistinctPaths, AllOnDisk, PathsOf, SuffixFrom;
    UsedIsTotal(h, files);
    if Total(h) <= budget {
      j := 0;
      WholeSuffix(h, budget, files, stuck);
    } else {
      var rest := h[1..];
      assert Entries(h)[1..] == Entries(rest);
      OthersStayOnDisk(h, files, stuck);
      var k := EvictKeepsLongestSuffix(rest, Remove(files, h[0].path, stuck), budget, stuck);
      j := k + 1;
      SuffixFromTail(h, budget, k);
      SuffixInRange(h, budget, j);
      PathsOfCons(h, j);
      assert rest[k..] == h[j..];
      assert Remove(files, h[0].path, stuck) - (PathsOf(rest[..k]) - stuck) == files - (PathsOf(h[..j]) - stuck);
    }
  }

  lemma SuffixInRange(h: seq<StoreStep>, budget: nat, j: nat)
    requires SuffixFrom(h, budget, j)
    ensures j <= |h|
  {
  }

  lemma WholeSuffix(h: seq<StoreStep>, budget: nat, files: Files, stuck: set<string>)
    requires Total(h) <= budget
    ensures SuffixFrom(h, budget, 0) && h[0..] == h && files - (PathsOf(h[..0]) - stuck) == files
  {
    assert h[0..] == h;
  }

  /** Appending to a longest suffix and evicting gives the longest suffix of the longer history. */
  lemma SuffixOfSuffix(h: seq<StoreStep>, x: StoreStep, budget: nat, k: nat, j: nat)
    requires Cut(h, budget, k) && SuffixFrom(h[k..] + [x], budget, j)
    ensures SuffixFrom(h + [x], budget, k + j) && (h[k..] + [x])[j..] == (h + [x])[k + j..]
  {
    hide Total;
    TailOfTail(h, x, k, j);
    if j > 0 {
      TailOfTail(h, x, k, j - 1);
    } else if k > 0 {
      LongerStill(h, x, k - 1);
    }
  }

  lemma TailOfTail(h: seq<StoreStep>, x: StoreStep, k: nat, j: nat)
    requires k <= |h| && j <= |h| - k + 1
    ensures (h[k..] + [x])[j..] == (h + [x])[k + j..]
  {
  }

  lemma LongerStill(h: seq<StoreStep>, x: StoreStep, k: nat)
    requires k <= |h|
    ensures Total((h + [x])[k..]) >= Total(h[k..])
  {
    var longer := (h + [x])[k..];
    assert longer[..|longer| - 1] == h[k..];
  }

  // ---------------------------------------------------------------- one store

  lemma TempIsNoDump(path: string, other: string)
    requires EndsWith(other, ".dat")
    ensures TempPath(path) != other
  {
    assert TempPath(path)[|TempPath(path)| - 1] == 'p';
    assert other[|other| - 4..][3] == 't';
  }

  lemma HoldsEntries(h: seq<StoreStep>, path: string)
    ensures Holds(Entries(h), path) <==> path in PathsOf(h)
  {
    if Holds(Entries(h), path) {
      var i :| 0 <= i < |Entries(h)| && Entries(h)[i].path == path;
      assert h[i].path == path;
    }
    if path in PathsOf(h) {
      var i :| 0 <= i < |h| && h[i].path == path;
      assert Entries(h)[i].path == path;
    }
  }

  lemma PathsSplit(h: seq<StoreStep>, j: nat)
    requires DistinctPaths(h) && j <= |h|
    ensures PathsOf(h) == PathsOf(h[..j]) + PathsOf(h[j..]) && PathsOf(h[..j]) !! PathsOf(h[j..])
  {
    forall p | p in PathsOf(h) ensures p in PathsOf(h[..j]) + PathsOf(h[j..]) {
      var i :| 0 <= i < |h| && h[i].path == p;
      if i < j { assert h[..j][i].path == p; } else { assert h[j..][i - j].path == p; }
    }
    forall p | p in PathsOf(h[..j]) ensures p in PathsOf(h) {
      var i :| 0 <= i < j && h[..j][i].path == p;
      assert h[i].path == p;
    }
    forall p | p in PathsOf(h[j..]) ensures p in PathsOf(h) {
      var i :| 0 <= i < |h| - j && h[j..][i].path == p;
      assert h[i + j].path == p;
    }
    forall i, i' | 0 <= i < j && 0 <= i' < |h| - j ensures h[..j][i].path != h[j..][i'].path {
      assert h[..j][i] == h[i] && h[j..][i'] == h[i' + j];
    }
  }

  /** The store between steps. The first n steps of the history are the dumps it started with; the
      queues of profiles not stored to since are still those. */
  ghost predicate InStep(c: Contents, steps: seq<StoreStep>, n: nat) {
    && n <= |steps| && FilesMatch(c, steps) && QueuesFit(c, steps, n)
    && forall name :: !StoredSince(steps, n, name) ==> QueueOf(c.index, name) == Entries(Of(steps, name))
  }

  ghost predicate OneSetting(steps: seq<StoreStep>, p: DumpProfile) {
    forall i :: 0 <= i < |steps| && steps[i].profile.name == p.name ==> steps[i].profile == p
  }

  /** How much of a profile's history its queue leaves out. */
  lemma QueueStart(c: Contents, steps: seq<StoreStep>, n: nat, p: DumpProfile) returns (k: nat)
    requires InStep(c, steps, n)
    requires OneSetting(steps, p)
    ensures var h, budget := Of(steps, p.name), BudgetBytes(p.storage.budgetMB);
            && Cut(h, budget, k) && k <= |h| && QueueOf(c.index, p.name) == Entries(h[k..])
            && (if StoredSince(steps, n, p.name) then Total(h[k..]) <= budget else k == 0)
  {
    hide FilesMatch, BudgetBytes;
    var h := Of(steps, p.name);
    if StoredSince(steps, n, p.name) {
      var i :| n <= i < |steps| && steps[i].profile.name == p.name;
      k :| SuffixFrom(h, BudgetBytes(p.storage.budgetMB), k) && QueueOf(c.index, p.name) == Entries(h[k..]);
    } else {
      k := 0;
      assert h[0..] == h;
    }
  }

  /** The dumps of a queue and the one just written are all on disk. */
  lemma QueuedIsOnDisk(c: Contents, steps: seq<StoreStep>, n: nat, x: StoreStep, k: nat)
    requires InStep(c, steps, n) && WellFormed(steps + [x])
    requires var h := Of(steps, x.profile.name); k <= |h| && QueueOf(c.index, x.profile.name) == Entries(h[k..])
    ensures var h := Of(steps, x.profile.name)[k..] + [x];
            DistinctPaths(h) && AllOnDisk(h, FilesAfterWrite(c.files, x.path, Written(x.bytes), {}))
  {
    hide *;
    var h := Of(steps, x.profile.name);
    DistinctBefore(steps, x);
    OfIsDistinct(steps, x.profile.name);
    var files := FilesAfterWrite(c.files, x.path, Written(x.bytes), {});
    forall i | k <= i < |h|
      ensures h[i].path != x.path && h[i].path in files && files[h[i].path] == h[i].bytes
    {
      var m := MembersOf(steps, x.profile.name, i);
      EntryInTail(h, k, i);
      StillOnDisk(c, steps, n, x, m);
    }
    WithNewest(h, k, x, c.files, files);
  }

  lemma DistinctBefore(steps: seq<StoreStep>, x: StoreStep)
    requires WellFormed(steps + [x])
    ensures DistinctPaths(steps)
  {
    forall i, j | 0 <= i < j < |steps| ensures steps[i].path != steps[j].path {
      assert (steps + [x])[i] == steps[i] && (steps + [x])[j] == steps[j];
    }
  }

  lemma EntryInTail(h: seq<StoreStep>, k: nat, i: nat)
    requires k <= i < |h|
    ensures Holds(Entries(h[k..]), h[i].path)
  {
    assert Entries(h[k..])[i - k].path == h[i].path;
  }

  lemma StillOnDisk(c: Contents, steps: seq<StoreStep>, n: nat, x: StoreStep, m: nat)
    requires InStep(c, steps, n) && WellFormed(steps + [x]) && m < |steps|
    requires Holds(QueueOf(c.index, steps[m].profile.name), steps[m].path)
    ensures var files := FilesAfterWrite(c.files, x.path, Written(x.bytes), {});
            steps[m].path != x.path && steps[m].path in files && files[steps[m].path] == steps[m].bytes
  {
    hide QueuesFit, Of, EndsWith, Holds;
    var all := steps + [x];
    assert all[m] == steps[m] && all[|steps|] == x;
    TempIsNoDump(x.path, steps[m].path);
  }

  lemma WithNewest(h: seq<StoreStep>, k: nat, x: StoreStep, before: Files, files: Files)
    requires DistinctPaths(h) && k <= |h| && files == FilesAfterWrite(before, x.path, Written(x.bytes), {})
    requires forall i :: k <= i < |h| ==>
               h[i].path != x.path && h[i].path in files && files[h[i].path] == h[i].bytes
    ensures DistinctPaths(h[k..] + [x]) && AllOnDisk(h[k..] + [x], files)
  {
    var tail := h[k..] + [x];
    forall i | 0 <= i < |tail| - 1 ensures tail[i] == h[k + i] {
    }
  }

  /** A store that fails leaves the index, and of the files at most its temporary one changes. A write that
      broke off stays behind and so does what cannot be removed; a file that could not be opened is as it
      was; otherwise none is left. */
  lemma FailedStoreLeaves(c: Contents, profile: DumpProfile, path: string, ts: int, outcome: WriteOutcome,
                          stuck: set<string>)
    requires !outcome.Written?
    ensures var temp := path + ".tmp"; var after := Stored(c, profile, path, ts, outcome, stuck);
            && after.index == c.index
            && (forall other :: other != temp ==>
                  (other in after.files <==> other in c.files)
                  && (other in c.files ==> after.files[other] == c.files[other]))
            && (temp in after.files <==>
                  || outcome.SerializeFails?
                  || (temp in c.files && (outcome.CannotOpen? || (outcome.NoDirectory? && temp in stuck)))
                  || ((outcome.StreamFails? || outcome.RenameFails?) && temp in stuck))
            && (outcome.SerializeFails? ==> after.files[temp] == outcome.partial)
            && (outcome.StreamFails? || outcome.RenameFails? ==> temp in after.files ==> after.files[temp] == 0)
            && (outcome.CannotOpen? || outcome.NoDirectory? ==>
                  temp in after.files ==> after.files[temp] == c.files[temp])
  {
  }

  /** What one store does, spelled out: the queue becomes the longest suffix of the longer
      history, the evicted files and no other dump files go. */
  lemma StoreEffect(c: Contents, steps: seq<StoreStep>, n: nat, x: StoreStep) returns (k: nat, j: nat)
    requires InStep(c, steps, n) && WellFormed(steps + [x])
    ensures var name, budget := x.profile.name, BudgetBytes(x.profile.storage.budgetMB);
            var h := Of(steps, name);
            && k <= |h| && QueueOf(c.index, name) == Entries(h[k..])
            && SuffixFrom(h + [x], budget, k + j) && j <= |h| - k + 1
            && DistinctPaths(h[k..] + [x])
            && StoreOne(c, x) == Contents(c.index[name := Entries((h[k..] + [x])[j..])],
                 FilesAfterWrite(c.files, x.path, Written(x.bytes), {}) - PathsOf((h[k..] + [x])[..j]))
            && (h[k..] + [x])[j..] == (h + [x])[k + j..]
  {
    hide *;
    SameSettings(steps, x);
    k := QueueStart(c, steps, n, x.profile);
    var h := Of(steps, x.profile.name);
    var budget := BudgetBytes(x.profile.storage.budgetMB);
    QueuedIsOnDisk(c, steps, n, x, k);
    var tail := h[k..] + [x];
    EntriesAppend(h[k..], x);
    j := EvictKeepsLongestSuffix(tail, FilesAfterWrite(c.files, x.path, Written(x.bytes), {}), budget, {});
    SuffixInRange(tail, budget, j);
    assert PathsOf(tail[..j]) - {} == PathsOf(tail[..j]);
    SuffixOfSuffix(h, x, budget, k, j);
    StoreUnfolds(c, x);
  }

  lemma SameSettings(steps: seq<StoreStep>, x: StoreStep)
    requires WellFormed(steps + [x])
    ensures OneSetting(steps, x.profile)
  {
    var all := steps + [x];
    assert all[|steps|] == x;
    forall i | 0 <= i < |steps| && steps[i].profile.name == x.profile.name ensures steps[i].profile == x.profile {
      assert all[i] == steps[i];
    }
  }

  lemma EntriesAppend(h: seq<StoreStep>, x: StoreStep)
    ensures Entries(h + [x]) == Entries(h) + [DumpEntry(x.path, x.ts)]
  {
  }

  lemma StoreUnfolds(c: Contents, x: StoreStep)
    ensures var (queue, left) := Evict(QueueOf(c.index, x.profile.name) + [DumpEntry(x.path, x.ts)],
                                       FilesAfterWrite(c.files, x.path, Written(x.bytes), {}),
                                       BudgetBytes(x.profile.storage.budgetMB), {});
            StoreOne(c, x) == Contents(c.index[x.profile.name := queue], left)
  {
    hide Evict, FilesAfterWrite, BudgetBytes;
  }

  lemma OfGrows(steps: seq<StoreStep>, x: StoreStep, name: string)
    ensures Of(steps + [x], name) == if x.profile.name == name then Of(steps, name) + [x] else Of(steps, name)
  {
    assert (steps + [x])[..|steps|] == steps;
  }

  lemma QueuesStayFit(c: Contents, steps: seq<StoreStep>, n: nat, x: StoreStep)
    requires InStep(c, steps, n) && WellFormed(steps + [x])
    ensures QueuesFit(StoreOne(c, x), steps + [x], n)
    ensures forall name :: !StoredSince(steps + [x], n, name) ==>
        QueueOf(StoreOne(c, x).index, name) == Entries(Of(steps + [x], name))
  {
    hide FilesMatch, Stored, PathsOf, FilesAfterWrite, DistinctPaths, SuffixFrom, Entries;
    var k, j := StoreEffect(c, steps, n, x);
    var all, c' := steps + [x], StoreOne(c, x);
    forall i | n <= i < |all|
      ensures LongestSuffix(QueueOf(c'.index, all[i].profile.name), Of(all, all[i].profile.name),
                            BudgetBytes(all[i].profile.storage.budgetMB))
    {
      OfGrows(steps, x, all[i].profile.name);
      assert all[|steps|] == x;
      if all[i].profile.name != x.profile.name {
        assert all[i] == steps[i];
      }
    }
    forall name | !StoredSince(all, n, name) ensures QueueOf(c'.index, name) == Entries(Of(all, name)) {
      OfGrows(steps, x, name);
      assert all[|steps|] == x;
      forall i | n <= i < |steps| ensures steps[i].profile.name != name {
        assert all[i] == steps[i];
      }
    }
  }

  lemma FilesStayMatched(c: Contents, steps: seq<StoreStep>, n: nat, x: StoreStep)
    requires InStep(c, steps, n) && WellFormed(steps + [x])
    ensures FilesMatch(StoreOne(c, x), steps + [x])
  {
    hide QueuesFit, Stored, SuffixFrom, Entries, Holds, PathsOf, DistinctPaths;
    var k, j := StoreEffect(c, steps, n, x);
    var all, c' := steps + [x], StoreOne(c, x);
    var h := Of(steps, x.profile.name)[k..];
    var tail := h + [x];
    PathsSplit(tail, j);
    HoldsEntries(tail[j..], x.path);
    forall i | 0 <= i < |all|
      ensures all[i].path in c'.files <==> Holds(QueueOf(c'.index, all[i].profile.name), all[i].path)
      ensures all[i].path in c'.files ==> c'.files[all[i].path] == all[i].bytes
    {
      var s := all[i];
      assert all[|steps|] == x;
      HoldsEntries(tail[j..], s.path);
      HoldsEntries(h, s.path);
      PathsOfAppend(h, x);
      if i < |steps| {
        assert s == steps[i] && s.path != x.path;
        TempIsNoDump(x.path, s.path);
        if s.profile.name != x.profile.name {
          ForeignPath(steps, x, k, s, i);
        }
      }
    }
  }

  lemma PathsOfAppend(h: seq<StoreStep>, x: StoreStep)
    ensures PathsOf(h + [x]) == PathsOf(h) + {x.path}
  {
    forall p | p in PathsOf(h) + {x.path} ensures p in PathsOf(h + [x]) {
      if p == x.path {
        assert (h + [x])[|h|].path == p;
      } else {
        var i :| 0 <= i < |h| && h[i].path == p;
        assert (h + [x])[i].path == p;
      }
    }
  }

  lemma ForeignPath(steps: seq<StoreStep>, x: StoreStep, k: nat, s: StoreStep, i: nat)
    requires WellFormed(steps + [x]) && i < |steps| && steps[i] == s && s.profile.name != x.profile.name
    requires k <= |Of(steps, x.profile.name)|
    ensures s.path !in PathsOf(Of(steps, x.profile.name)[k..])
  {
    var h := Of(steps, x.profile.name);
    forall m | k <= m < |h| ensures h[m].path != s.path {
      var n := MembersOf(steps, x.profile.name, m);
      assert (steps + [x])[n] == steps[n] && (steps + [x])[i] == steps[i];
    }
  }

  // ---------------------------------------------------------------- whole runs

  lemma WellFormedPrefix(steps: seq<StoreStep>)
    requires WellFormed(steps) && steps != []
    ensures WellFormed(steps[..|steps| - 1])
  {
  }

  /** The dumps a store starts with: none, or what a restart has found, over budget or not. */
  ghost predicate Describes(c: Contents, past: seq<StoreStep>) {
    && (forall name :: QueueOf(c.index, name) == Entries(Of(past, name)))
    && AllOnDisk(past, c.files)
  }

  lemma StartInStep(c: Contents, past: seq<StoreStep>)
    requires Describes(c, past)
    ensures InStep(c, past, |past|)
  {
    hide AllOnDisk;
    forall i | 0 <= i < |past|
      ensures past[i].path in c.files && c.files[past[i].path] == past[i].bytes
      ensures Holds(QueueOf(c.index, past[i].profile.name), past[i].path)
    {
      OnDiskAt(past, c.files, i);
      var k := PositionIn(past, i);
      assert Entries(Of(past, past[i].profile.name))[k].path == past[i].path;
    }
  }

  lemma OnDiskAt(h: seq<StoreStep>, files: Files, i: nat)
    requires AllOnDisk(h, files) && i < |h|
    ensures h[i].path in files && files[h[i].path] == h[i].bytes
  {
  }

  /** After any run of stores, from whatever a restart found, the queue of each profile stored to is
      the longest suffix of its history that fits the budget, the dumps found included; the others
      are unchanged, and exactly the queued dumps are on disk. */
  lemma {:induction false} RunKeepsLongestSuffix(c: Contents, steps: seq<StoreStep>, n: nat)
    requires n <= |steps| && Describes(c, steps[..n]) && WellFormed(steps)
    ensures InStep(Run(c, steps[n..]), steps, n)
    decreases |steps|
  {
    hide WellFormed, StoreOne, Describes, InStep;
    if |steps| == n {
      assert steps[..n] == steps;
      StartInStep(c, steps);
    } else {
      var m := |steps| - 1;
      WellFormedPrefix(steps);
      assert steps[..m][..n] == steps[..n] && steps[n..][..|steps[n..]| - 1] == steps[..m][n..];
      RunKeepsLongestSuffix(c, steps[..m], n);
      assert steps[..m] + [steps[m]] == steps;
      StoreKeepsInStep(Run(c, steps[..m][n..]), steps[..m], n, steps[m]);
    }
  }

  lemma StoreKeepsInStep(c: Contents, steps: seq<StoreStep>, n: nat, x: StoreStep)
    requires InStep(c, steps, n) && WellFormed(steps + [x])
    ensures InStep(StoreOne(c, x), steps + [x], n)
  {
    hide FilesMatch, QueuesFit, StoreOne, WellFormed, StoredSince, Entries, Of;
    QueuesStayFit(c, steps, n, x);
    FilesStayMatched(c, steps, n, x);
  }

  /** The dump just stored is still on disk exactly when it fits the budget alone. */
  lemma NewestSurvivesIffItFits(c: Contents, steps: seq<StoreStep>, n: nat)
    requires n < |steps| && Describes(c, steps[..n]) && WellFormed(steps)
    ensures var x := steps[|steps| - 1]; var now := Run(c, steps[n..]);
            && (x.path in now.files <==> x.bytes <= BudgetBytes(x.profile.storage.budgetMB))
            && (Holds(QueueOf(now.index, x.profile.name), x.path) <==> x.path in now.files)
  {
    hide StoreOne, Evict, Stored, Describes, Run;
    var x := steps[|steps| - 1];
    RunKeepsLongestSuffix(c, steps, n);
    var h := Of(steps, x.profile.name);
    var budget := BudgetBytes(x.profile.storage.budgetMB);
    var k: nat :| SuffixFrom(h, budget, k) && QueueOf(Run(c, steps[n..]).index, x.profile.name) == Entries(h[k..]);
    assert h[|h| - 1] == x;
    HoldsEntries(h[k..], x.path);
    if k < |h| {
      assert h[k..][|h| - 1 - k] == x;
      LastWithin(h[k..]);
    } else {
      assert h[k - 1..] == [x] && Total([x]) == x.bytes;
      assert h[k..] == [];
    }
  }

  lemma LastWithin(h: seq<StoreStep>)
    requires h != []
    ensures h[|h| - 1].bytes <= Total(h) && h[|h| - 1].path in PathsOf(h)
  {
  }

  // ---------------------------------------------------------------- the partition

  function OnDisk(files: Files, h: seq<StoreStep>): nat {
    if h == [] then 0 else OnDisk(files, h[..|h| - 1]) + SizeOf(files, h[|h| - 1].path)
  }

  function SumOnDisk(files: Files, steps: seq<StoreStep>, profiles: seq<DumpProfile>): nat {
    if profiles == [] then 0
    else SumOnDisk(files, steps, profiles[..|profiles| - 1]) + OnDisk(files, Of(steps, profiles[|profiles| - 1].name))
  }

  function SumMB(profiles: seq<DumpProfile>): nat {
    if profiles == [] then 0
    else SumMB(profiles[..|profiles| - 1]) + profiles[|profiles| - 1].storage.budgetMB
  }

  function SumBudgets(profiles: seq<DumpProfile>): nat {
    if profiles == [] then 0
    else SumBudgets(profiles[..|profiles| - 1]) + BudgetBytes(profiles[|profiles| - 1].storage.budgetMB)
  }

  function Allotment(capacityBytes: nat, thresholdMB: nat): nat {
    var partitionMB := capacityBytes / 0x10_0000;
    if partitionMB > thresholdMB then partitionMB - thresholdMB else 0
  }

  /** The startup check: the budgets are added up in size_t. */
  method ValidateBudgets(profiles: seq<DumpProfile>, capacityBytes: nat, thresholdMB: nat) returns (ok: bool)
    ensures ok <==> SumMB(profiles) % 0x1_0000_0000_0000_0000 <= Allotment(capacityBytes, thresholdMB)
  {
    var total: nat := 0;
    for i := 0 to |profiles|
      invariant total == SumMB(profiles[..i]) % 0x1_0000_0000_0000_0000
    {
      assert profiles[..i + 1][..i] == profiles[..i];
      total := (total + profiles[i].storage.budgetMB) % 0x1_0000_0000_0000_0000;
    }
    assert profiles[..|profiles|] == profiles;
    var partitionMB := capacityBytes / 0x10_0000;
    var allotment := if partitionMB > thresholdMB then partitionMB - thresholdMB else 0;
    ok := total <= allotment;
  }

  /** The check passes exactly if the wrapped sum is zero or leaves the threshold free. */
  lemma AllotmentFitsIff(total: nat, capacityBytes: nat, thresholdMB: nat)
    ensures total <= Allotment(capacityBytes, thresholdMB)
       <==> total == 0 || 0x10_0000 * (total + thresholdMB) <= capacityBytes
  {
  }

  /** A byte budget is the whole number of mebibytes below 2^64, and less above. */
  lemma BudgetBytesIff(budgetMB: nat)
    ensures BudgetBytes(budgetMB) == 0x10_0000 * budgetMB <==> budgetMB < 0x1000_0000_0000
    ensures BudgetBytes(budgetMB) == 0x10_0000 * (budgetMB % 0x1000_0000_0000)
  {
    var q, r := budgetMB / 0x1000_0000_0000, budgetMB % 0x1000_0000_0000;
    assert budgetMB * 0x10_0000 == q * 0x1_0000_0000_0000_0000 + r * 0x10_0000;
    WrapsTo(q, r * 0x10_0000);
  }

  lemma WrapsTo(q: nat, r: nat)
    requires r < 0x1_0000_0000_0000_0000
    ensures (q * 0x1_0000_0000_0000_0000 + r) % 0x1_0000_0000_0000_0000 == r
  {
  }

  ghost predicate ProfilesCover(profiles: seq<DumpProfile>, steps: seq<StoreStep>) {
    && (forall i, j :: 0 <= i < j < |profiles| ==> profiles[i].name != profiles[j].name)
    && (forall i :: 0 <= i < |steps| ==> steps[i].profile in profiles)
  }

  lemma {:induction false} SuffixOnDisk(files: Files, h: seq<StoreStep>, k: nat)
    requires k <= |h|
    requires forall i :: 0 <= i < k ==> h[i].path !in files
    requires forall i :: k <= i < |h| ==> h[i].path in files && files[h[i].path] == h[i].bytes
    ensures OnDisk(files, h) == Total(h[k..])
  {
    if k == |h| {
      NoneOnDisk(files, h);
      assert h[k..] == [];
    } else {
      var n := |h| - 1;
      assert h[k..][..n - k] == h[..n][k..];
      SuffixOnDisk(files, h[..n], k);
    }
  }

  lemma {:induction false} NoneOnDisk(files: Files, h: seq<StoreStep>)
    requires forall i :: 0 <= i < |h| ==> h[i].path !in files
    ensures OnDisk(files, h) == 0
  {
    if h != [] {
      NoneOnDisk(files, h[..|h| - 1]);
    }
  }

  /** The bytes a profile has on disk are those of the part of its history that is queued. */
  lemma ProfileOnDisk(c: Contents, steps: seq<StoreStep>, n: nat, p: DumpProfile) returns (k: nat)
    requires InStep(c, steps, n) && WellFormed(steps)
    requires OneSetting(steps, p)
    ensures var h, budget := Of(steps, p.name), BudgetBytes(p.storage.budgetMB);
            && Cut(h, budget, k) && k <= |h| && OnDisk(c.files, h) == Total(h[k..])
            && (if StoredSince(steps, n, p.name) then Total(h[k..]) <= budget else k == 0)
  {
    hide Cut, OnDisk, Total, Entries, Holds, QueuesFit;
    k := QueueStart(c, steps, n, p);
    var h := Of(steps, p.name);
    OfIsDistinct(steps, p.name);
    forall i | 0 <= i < |h|
      ensures h[i].path in c.files <==> k <= i
      ensures h[i].path in c.files ==> c.files[h[i].path] == h[i].bytes
    {
      var m := MembersOf(steps, p.name, i);
      HoldsEntries(h[k..], h[i].path);
      InTail(h, k, i);
    }
    SuffixOnDisk(c.files, h, k);
  }

  /** A profile keeps its budget exactly where it was stored to or started within it: a restart
      evicts nothing. */
  ghost predicate Fits(steps: seq<StoreStep>, n: nat, p: DumpProfile) {
    StoredSince(steps, n, p.name) || Total(Of(steps, p.name)) <= BudgetBytes(p.storage.budgetMB)
  }

  lemma ProfileWithinBudgetIff(c: Contents, steps: seq<StoreStep>, n: nat, p: DumpProfile)
    requires InStep(c, steps, n) && WellFormed(steps) && OneSetting(steps, p)
    ensures OnDisk(c.files, Of(steps, p.name)) <= BudgetBytes(p.storage.budgetMB) <==> Fits(steps, n, p)
  {
    hide InStep, WellFormed, OneSetting, Cut, Total, Of, OnDisk, StoredSince;
    var k := ProfileOnDisk(c, steps, n, p);
    assert Of(steps, p.name)[0..] == Of(steps, p.name);
  }

  lemma InTail(h: seq<StoreStep>, k: nat, i: nat)
    requires DistinctPaths(h) && k <= |h| && i < |h|
    ensures h[i].path in PathsOf(h[k..]) <==> k <= i
  {
    if k <= i {
      assert h[k..][i - k].path == h[i].path;
    }
  }

  ghost predicate AllFit(steps: seq<StoreStep>, n: nat, profiles: seq<DumpProfile>) {
    forall p :: p in profiles ==> Fits(steps, n, p)
  }

  lemma {:induction false} SumsWithinBudgets(c: Contents, steps: seq<StoreStep>, n: nat, profiles: seq<DumpProfile>)
    requires InStep(c, steps, n) && WellFormed(steps) && AllFit(steps, n, profiles)
    requires forall p :: p in profiles ==> OneSetting(steps, p)
    ensures SumOnDisk(c.files, steps, profiles) <= SumBudgets(profiles)
  {
    hide InStep, WellFormed, OnDisk, Of, Fits, OneSetting;
    if profiles != [] {
      var m := |profiles| - 1;
      ProfileWithinBudgetIff(c, steps, n, profiles[m]);
      SumsWithinBudgets(c, steps, n, profiles[..m]);
    }
  }

  lemma CoveredSettings(profiles: seq<DumpProfile>, steps: seq<StoreStep>)
    requires ProfilesCover(profiles, steps)
    ensures forall p :: p in profiles ==> OneSetting(steps, p)
  {
  }

  /** Adding up by profile counts every dump once. */
  lemma {:induction false} SumByProfile(files: Files, steps: seq<StoreStep>, profiles: seq<DumpProfile>)
    requires ProfilesCover(profiles, steps)
    ensures SumOnDisk(files, steps, profiles) == OnDisk(files, steps)
  {
    hide Of, SumOnDisk, ProfilesCover;
    if steps == [] {
      SumOfNothing(files, profiles);
    } else {
      var n := |steps| - 1;
      var m := CoverOfLast(profiles, steps);
      SumByProfile(files, steps[..n], profiles);
      assert steps[..n] + [steps[n]] == steps;
      SumGrows(files, steps[..n], steps[n], profiles, m);
    }
  }

  lemma CoverOfLast(profiles: seq<DumpProfile>, steps: seq<StoreStep>) returns (m: nat)
    requires ProfilesCover(profiles, steps) && steps != []
    ensures m < |profiles| && profiles[m] == steps[|steps| - 1].profile
    ensures ProfilesCover(profiles, steps[..|steps| - 1])
    ensures forall i, j :: 0 <= i < j < |profiles| ==> profiles[i].name != profiles[j].name
  {
    var n := |steps| - 1;
    assert steps[n].profile in profiles;
    m :| 0 <= m < |profiles| && profiles[m] == steps[n].profile;
    forall i | 0 <= i < n ensures steps[..n][i].profile in profiles {
      assert steps[..n][i] == steps[i];
    }
  }

  lemma {:induction false} SumOfNothing(files: Files, profiles: seq<DumpProfile>)
    ensures SumOnDisk(files, [], profiles) == 0
  {
    if profiles != [] {
      SumOfNothing(files, profiles[..|profiles| - 1]);
    }
  }

  lemma {:induction false} SumGrows(files: Files, steps: seq<StoreStep>, x: StoreStep, profiles: seq<DumpProfile>,
                                    m: nat)
    requires forall i, j :: 0 <= i < j < |profiles| ==> profiles[i].name != profiles[j].name
    requires m < |profiles| ==> profiles[m] == x.profile
    requires m >= |profiles| ==> forall i :: 0 <= i < |profiles| ==> profiles[i].name != x.profile.name
    ensures SumOnDisk(files, steps + [x], profiles)
         == SumOnDisk(files, steps, profiles) + if m < |profiles| then SizeOf(files, x.path) else 0
    decreases |profiles|
  {
    hide Of, SizeOf;
    if profiles != [] {
      var n := |profiles| - 1;
      SumGrows(files, steps, x, profiles[..n], if m == n then |profiles| else m);
      OfGrows(steps, x, profiles[n].name);
      OnDiskGrows(files, Of(steps, profiles[n].name), x);
    }
  }

  lemma OnDiskGrows(files: Files, h: seq<StoreStep>, x: StoreStep)
    ensures OnDisk(files, h + [x]) == OnDisk(files, h) + SizeOf(files, x.path)
  {
    assert (h + [x])[..|h|] == h;
  }

  /** Whatever is stored, the dumps take at most the sum of the byte budgets. */
  lemma DumpsWithinBudgets(c: Contents, steps: seq<StoreStep>, n: nat, profiles: seq<DumpProfile>)
    requires n <= |steps| && Describes(c, steps[..n]) && WellFormed(steps) && ProfilesCover(profiles, steps)
    requires AllFit(steps, n, profiles)
    ensures OnDisk(Run(c, steps[n..]).files, steps) <= SumBudgets(profiles)
  {
    hide WellFormed, InStep, Run, SumOnDisk, SumBudgets, OnDisk, Describes, ProfilesCover, OneSetting, AllFit;
    RunKeepsLongestSuffix(c, steps, n);
    SumByProfile(Run(c, steps[n..]).files, steps, profiles);
    CoveredSettings(profiles, steps);
    SumsWithinBudgets(Run(c, steps[n..]), steps, n, profiles);
  }

  lemma {:induction false} BudgetsInBytes(profiles: seq<DumpProfile>)
    ensures SumBudgets(profiles) <= 0x10_0000 * SumMB(profiles)
  {
    if profiles != [] {
      BudgetsInBytes(profiles[..|profiles| - 1]);
    }
  }

  /** Startup validation does its job where the sum of the budgets does not wrap: the dumps of
      all profiles leave the threshold free on the partition. */
  lemma ValidatedBudgetsLeaveHeadroom(c: Contents, steps: seq<StoreStep>, n: nat, profiles: seq<DumpProfile>,
                                      capacityBytes: nat, thresholdMB: nat)
    requires n <= |steps| && Describes(c, steps[..n]) && WellFormed(steps) && ProfilesCover(profiles, steps)
    requires AllFit(steps, n, profiles)
    requires SumMB(profiles) < 0x1_0000_0000_0000_0000
    requires SumMB(profiles) % 0x1_0000_0000_0000_0000 <= Allotment(capacityBytes, thresholdMB)
    ensures OnDisk(Run(c, steps[n..]).files, steps) <= 0x10_0000 * Allotment(capacityBytes, thresholdMB)
    ensures thresholdMB <= capacityBytes / 0x10_0000 ==>
              OnDisk(Run(c, steps[n..]).files, steps) + 0x10_0000 * thresholdMB <= capacityBytes
  {
    hide WellFormed, ProfilesCover, Run, OnDisk, SumBudgets, AllFit, Describes;
    DumpsWithinBudgets(c, steps, n, profiles);
    BudgetsInBytes(profiles);
  }

  // One dump of exactly the budget for every profile.

  function FullPath(i: nat): (path: string)
    ensures EndsWith(path, ".dat") && |path| == i + 4
  {
    seq(i, _ => 'd') + ".dat"
  }

  function FillAll(profiles: seq<DumpProfile>, from: nat): seq<StoreStep> {
    seq(|profiles|, i requires 0 <= i < |profiles| =>
      StoreStep(profiles[i], FullPath(from + i), i, BudgetBytes(profiles[i].storage.budgetMB)))
  }

  lemma {:induction false} LongerThanAll(past: seq<StoreStep>) returns (from: nat)
    ensures forall i :: 0 <= i < |past| ==> |past[i].path| < from
  {
    from := 0;
    if past != [] {
      var n := |past| - 1;
      from := LongerThanAll(past[..n]);
      from := from + |past[n].path| + 1;
      forall i | 0 <= i < n ensures |past[i].path| < from {
        assert past[..n][i] == past[i];
      }
    }
  }

  lemma FillAllIsWellFormed(past: seq<StoreStep>, profiles: seq<DumpProfile>, from: nat)
    requires WellFormed(past) && ProfilesCover(profiles, past)
    requires forall i :: 0 <= i < |past| ==> |past[i].path| < from
    ensures var steps := past + FillAll(profiles, from);
            WellFormed(steps) && ProfilesCover(profiles, steps) && AllFit(steps, |past|, profiles)
  {
    hide Total, Of, EndsWith;
    var fill := FillAll(profiles, from);
    var steps := past + fill;
    forall i, j | 0 <= i < j < |steps|
      ensures steps[i].path != steps[j].path
      ensures steps[i].profile.name == steps[j].profile.name ==> steps[i].profile == steps[j].profile
    {
      if |past| <= j {
        assert steps[j] == fill[j - |past|];
        assert |past| <= i ==> steps[i] == fill[i - |past|];
        assert |steps[i].path| < |steps[j].path|;
      }
    }
    forall p | p in profiles ensures Fits(steps, |past|, p) {
      var i :| 0 <= i < |profiles| && profiles[i] == p;
      assert steps[|past| + i].profile == p;
    }
  }

  lemma {:induction false} OneOfEach(past: seq<StoreStep>, profiles: seq<DumpProfile>, from: nat, n: nat, m: nat)
    requires forall i, j :: 0 <= i < j < |profiles| ==> profiles[i].name != profiles[j].name
    requires n <= |profiles| && m < |profiles|
    ensures Of(past + FillAll(profiles, from)[..n], profiles[m].name)
         == Of(past, profiles[m].name) + if m < n then [FillAll(profiles, from)[m]] else []
    decreases n
  {
    hide Of, FillAll;
    FillAt(profiles, from);
    var fill, name := FillAll(profiles, from), profiles[m].name;
    if n == 0 {
      TakeNone(past, fill);
      TakeNone(Of(past, name), fill);
    } else {
      OneOfEach(past, profiles, from, n - 1, m);
      TakeOneMore(past, fill, n);
      OfGrows(past + fill[..n - 1], fill[n - 1], name);
      TakeNone(Of(past, name), fill);
    }
  }

  lemma FillAt(profiles: seq<DumpProfile>, from: nat)
    ensures |FillAll(profiles, from)| == |profiles|
    ensures forall i :: 0 <= i < |profiles| ==> FillAll(profiles, from)[i].profile == profiles[i]
  {
  }

  lemma TakeNone(past: seq<StoreStep>, fill: seq<StoreStep>)
    ensures past + fill[..0] == past && past + [] == past
  {
  }

  lemma TakeOneMore(past: seq<StoreStep>, fill: seq<StoreStep>, n: nat)
    requires 0 < n <= |fill|
    ensures past + fill[..n] == (past + fill[..n - 1]) + [fill[n - 1]]
  {
  }

  lemma {:induction false} FilledToTheBrim(c: Contents, past: seq<StoreStep>, all: seq<DumpProfile>, from: nat, n: nat)
    requires forall i, j :: 0 <= i < j < |all| ==> all[i].name != all[j].name
    requires InStep(c, past + FillAll(all, from), |past|) && WellFormed(past + FillAll(all, from)) && n <= |all|
    ensures SumOnDisk(c.files, past + FillAll(all, from), all[..n]) == SumBudgets(all[..n])
    decreases n
  {
    hide InStep, WellFormed, OnDisk, Of, SuffixFrom, Cut, Total, OneSetting, StoredSince;
    if n > 0 {
      FilledToTheBrim(c, past, all, from, n - 1);
      assert all[..n][..n - 1] == all[..n - 1];
      var fill := FillAll(all, from);
      OneOfEach(past, all, from, |all|, n - 1);
      assert fill[..|all|] == fill;
      FillSettings(past, all, from, n - 1);
      var k := ProfileOnDisk(c, past + fill, |past|, all[n - 1]);
      FullDumpStays(Of(past, all[n - 1].name), fill[n - 1], k);
    }
  }

  lemma FillSettings(past: seq<StoreStep>, all: seq<DumpProfile>, from: nat, m: nat)
    requires WellFormed(past + FillAll(all, from)) && m < |all|
    ensures OneSetting(past + FillAll(all, from), all[m]) && StoredSince(past + FillAll(all, from), |past|, all[m].name)
  {
    assert (past + FillAll(all, from))[|past| + m].profile == all[m];
  }

  lemma FullDumpStays(h: seq<StoreStep>, x: StoreStep, k: nat)
    requires Cut(h + [x], x.bytes, k) && k <= |h| + 1 && Total((h + [x])[k..]) <= x.bytes
    ensures Total((h + [x])[k..]) == x.bytes
  {
    var all := h + [x];
    assert all[|h|..] == [x] && [x][..0] == [];
    assert Total([x]) == x.bytes;
    assert k <= |h|;
    assert all[k..][|h| - k] == x;
    LastWithin(all[k..]);
  }

  /** A run that leaves no profile over its budget from before. */
  ghost predicate Settling(past: seq<StoreStep>, steps: seq<StoreStep>, profiles: seq<DumpProfile>) {
    WellFormed(past + steps) && ProfilesCover(profiles, past + steps) && AllFit(past + steps, |past|, profiles)
  }

  /** The bound is tight: the dumps stay within a limit over all these runs exactly when the byte
      budgets add up to no more. */
  lemma LimitHoldsIffBudgetsFit(c: Contents, past: seq<StoreStep>, profiles: seq<DumpProfile>, limit: nat)
    requires Describes(c, past) && WellFormed(past) && ProfilesCover(profiles, past)
    ensures (forall steps :: Settling(past, steps, profiles) ==>
               OnDisk(Run(c, steps).files, past + steps) <= limit)
        <==> SumBudgets(profiles) <= limit
  {
    hide WellFormed, InStep, Run, OnDisk, SumOnDisk, SumBudgets, FillAll, Describes, AllFit;
    forall steps | Settling(past, steps, profiles)
      ensures OnDisk(Run(c, steps).files, past + steps) <= SumBudgets(profiles)
    {
      SplitBack(past, steps);
      DumpsWithinBudgets(c, past + steps, |past|, profiles);
    }
    var from := LongerThanAll(past);
    var full := FillAll(profiles, from);
    FillAllIsWellFormed(past, profiles, from);
    SplitBack(past, full);
    RunKeepsLongestSuffix(c, past + full, |past|);
    FilledToTheBrim(Run(c, full), past, profiles, from, |profiles|);
    assert profiles[..|profiles|] == profiles;
    SumByProfile(Run(c, full).files, past + full, profiles);
  }

  lemma SplitBack(past: seq<StoreStep>, steps: seq<StoreStep>)
    ensures (past + steps)[..|past|] == past && (past + steps)[|past|..] == steps
  {
  }

  /** Budgets whose sum wraps pass the check on any partition, yet allow 2^64 bytes of dumps. */
  lemma WrappedSumPasses(storage: Storage)
    ensures var p := DumpProfile("A", "GPU", storage.(budgetMB := 0xFFF_FFFF_FFFF));
            var q := DumpProfile("B", "GPU", storage.(budgetMB := 0xFFFF_F000_0000_0001));
            && SumMB([p, q]) % 0x1_0000_0000_0000_0000 == 0
            && SumBudgets([p, q]) == 0x1_0000_0000_0000_0000
  {
    var p := DumpProfile("A", "GPU", storage.(budgetMB := 0xFFF_FFFF_FFFF));
    var q := DumpProfile("B", "GPU", storage.(budgetMB := 0xFFFF_F000_0000_0001));
    assert [p, q][..1] == [p] && [p][..0] == [];
    assert SumMB([p]) == SumMB([]) + 0xFFF_FFFF_FFFF;
    assert SumBudgets([p]) == SumBudgets([]) + BudgetBytes(0xFFF_FFFF_FFFF);
  }
}

/** A restart: the index rebuilt from file names alone is the one the running store held. */
module DumpRestart {
  import opened Text
  import opened DumpPaths
  import opened DumpStore
  import opened DumpHistory

  /** One call of store() and how its write ended. */
  datatype Attempt = Attempt(profile: DumpProfile, component: string, dir: string, ts: int, outcome: WriteOutcome)

  function NameFor(a: Attempt): string {
    FileName(a.profile.section, a.component, a.profile.storage.filePrefix, a.ts)
  }

  /** The file a dump is stored in. */
  function PathFor(base: string, a: Attempt): string {
    FileIn(base, a.dir, NameFor(a))
  }

  function AttemptOne(base: string, c: Contents, a: Attempt): Contents {
    Stored(c, a.profile, PathFor(base, a), a.ts, a.outcome, {})
  }

  function AttemptAll(base: string, c: Contents, attempts: seq<Attempt>): Contents {
    if attempts == [] then c
    else AttemptOne(base, AttemptAll(base, c, attempts[..|attempts| - 1]), attempts[|attempts| - 1])
  }

  function Successes(base: string, attempts: seq<Attempt>): seq<StoreStep> {
    if attempts == [] then []
    else
      var a := attempts[|attempts| - 1];
      var before := Successes(base, attempts[..|attempts| - 1]);
      if a.outcome.Written? then before + [StoreStep(a.profile, PathFor(base, a), a.ts, a.outcome.bytes)] else before
  }

  // ---------------------------------------------------------------- the platform

  /** A base path, and file names that tell profiles and components apart. */
  ghost predicate Platform(base: string, profiles: seq<DumpProfile>, sections: seq<Section>) {
    && base != ""
    && (forall i, j :: 0 <= i < j < |profiles| ==> profiles[i].name != profiles[j].name)
    && (forall p :: p in profiles ==> Unrepeated(ComponentsOf(sections, p.section)))
    && PrefixFree(profiles, sections)
  }

  ghost predicate PrefixFree(profiles: seq<DumpProfile>, sections: seq<Section>) {
    forall p, c, q, d :: Serves(profiles, sections, p, c) && Serves(profiles, sections, q, d) && (p != q || c != d) ==>
      !StartsWith(PrefixOf(p, c), PrefixOf(q, d))
  }

  ghost predicate Serves(profiles: seq<DumpProfile>, sections: seq<Section>, p: DumpProfile, c: string) {
    p in profiles && c in ComponentsOf(sections, p.section)
  }

  function PrefixOf(p: DumpProfile, component: string): string {
    NamePrefix(p.section, component, p.storage.filePrefix)
  }

  /** A store call the platform allows. */
  ghost predicate Allowed(profiles: seq<DumpProfile>, sections: seq<Section>, a: Attempt) {
    && Serves(profiles, sections, a.profile, a.component)
    && IsName(a.dir) && IsName(NameFor(a))
    && INT64_MIN <= a.ts <= INT64_MAX
  }

  predicate SameStore(a: Attempt, b: Attempt) {
    a.profile == b.profile && a.component == b.component && a.dir == b.dir && a.ts == b.ts
  }

  /** No component of a profile has two dumps stored for one second in one directory. */
  ghost predicate DistinctStores(attempts: seq<Attempt>) {
    forall i, j :: 0 <= i < j < |attempts| && attempts[i].outcome.Written? && attempts[j].outcome.Written? ==>
      !SameStore(attempts[i], attempts[j])
  }

  /** The successful stores of one profile. */
  predicate StoresFor(a: Attempt, name: string) {
    a.outcome.Written? && a.profile.name == name
  }

  /** No two of them carry the same event time. */
  ghost predicate DistinctTimes(attempts: seq<Attempt>, name: string) {
    forall i, j :: 0 <= i < j < |attempts| && StoresFor(attempts[i], name) && StoresFor(attempts[j], name) ==>
      attempts[i].ts != attempts[j].ts
  }

  /** They arrive with strictly increasing event times. */
  ghost predicate InTimeOrder(attempts: seq<Attempt>, name: string) {
    forall i, j :: 0 <= i < j < |attempts| && StoresFor(attempts[i], name) && StoresFor(attempts[j], name) ==>
      attempts[i].ts < attempts[j].ts
  }

  // ---------------------------------------------------------------- the disk

  /** A file the scan would take for a dump of some profile. */
  ghost predicate Claimed(profiles: seq<DumpProfile>, sections: seq<Section>, name: string) {
    exists p, c :: Serves(profiles, sections, p, c) && IsDumpName(name, PrefixOf(p, c))
  }

  /** Every such file comes from the run. */
  ghost predicate OnlyOurs(base: string, profiles: seq<DumpProfile>, sections: seq<Section>, files: Files,
                           steps: seq<StoreStep>) {
    forall dir, name :: IsName(dir) && IsName(name) && FileIn(base, dir, name) in files
                        && Claimed(profiles, sections, name) ==>
      FileIn(base, dir, name) in PathsOf(steps)
  }

  /** The directory walk reports every file two levels below the base once. It cannot begin at an
      empty path. */
  ghost predicate Walks(base: string, tree: seq<BootDir>, files: Files) {
    && Unrepeated(AllFiles(tree))
    && (forall f :: f in AllFiles(tree) ==> IsName(f.dir) && IsName(f.name) && FileIn(base, f.dir, f.name) in files)
    && (base != "" ==> forall dir, name :: IsName(dir) && IsName(name) && FileIn(base, dir, name) in files ==>
          FileAt(dir, name) in AllFiles(tree))
    && (base == "" ==> tree == [])
  }

  // ---------------------------------------------------------------- what the scan goes through

  /** The components of every section with that name, and no other. */
  lemma {:induction false} ComponentsListed(sections: seq<Section>, id: string, c: string)
    ensures c in ComponentsOf(sections, id) <==> exists s :: s in sections && s.id == id && c in s.components
  {
    if sections != [] {
      var n := |sections| - 1;
      ComponentsListed(sections[..n], id, c);
      assert sections == sections[..n] + [sections[n]];
    }
  }

  /** The files of every directory, and no other. */
  lemma {:induction false} FilesListed(tree: seq<BootDir>, f: FileAt)
    ensures f in AllFiles(tree) <==> exists d :: d in tree && d.name == f.dir && f.name in d.files
  {
    if tree != [] {
      var n := |tree| - 1;
      FilesListed(tree[..n], f);
      FilesInDir(tree[n], f);
      assert tree == tree[..n] + [tree[n]];
    }
  }

  lemma FilesInDir(d: BootDir, f: FileAt)
    ensures f in FilesIn(d.name, d.files) <==> d.name == f.dir && f.name in d.files
  {
    if d.name == f.dir && f.name in d.files {
      var i :| 0 <= i < |d.files| && d.files[i] == f.name;
      assert FilesIn(d.name, d.files)[i] == f;
    }
  }

  // ---------------------------------------------------------------- paths

  lemma TwoPrefixes(s: string, a: string, b: string)
    requires StartsWith(s, a) && StartsWith(s, b)
    ensures StartsWith(a, b) || StartsWith(b, a)
  {
    if |a| <= |b| {
      assert b[..|a|] == s[..|b|][..|a|] == a;
    } else {
      assert a[..|b|] == s[..|a|][..|b|] == b;
    }
  }

  lemma NameIsDump(section: string, component: string, prefix: string, t: int)
    ensures IsDumpName(FileName(section, component, prefix, t), NamePrefix(section, component, prefix))
  {
    var p := NamePrefix(section, component, prefix);
    var n := FileName(section, component, prefix, t);
    assert n == p + (IntToString(t) + ".dat");
    assert n[|n| - 4..] == ".dat";
  }

  /** The name of a dump tells when it was stored, and the scan finds its file. */
  lemma TimeOf(base: string, a: Attempt)
    requires INT64_MIN <= a.ts <= INT64_MAX
    ensures EntryAt(base, FileAt(a.dir, NameFor(a))) == DumpEntry(PathFor(base, a), a.ts)
  {
    hide PathIn, ListedPath, ExtractTimestamp, FileName, Plain;
    ExtractOfListed(base, a.dir, a.profile.section, a.component, a.profile.storage.filePrefix, a.ts);
    ListedIsStored(base, a.dir, NameFor(a));
  }

  lemma FileOfDump(base: string, a: Attempt)
    ensures EndsWith(PathFor(base, a), ".dat")
  {
    hide Plain;
    FileEndsLikeName(base, a.dir, NameFor(a));
    var name := NameFor(a);
    assert name[|name| - 4..] == ".dat";
  }

  // ---------------------------------------------------------------- the run

  lemma {:induction false} SuccessOf(base: string, attempts: seq<Attempt>, i: nat) returns (k: nat)
    requires i < |Successes(base, attempts)|
    ensures k < |attempts| && attempts[k].outcome.Written?
    ensures Successes(base, attempts)[i]
         == StoreStep(attempts[k].profile, PathFor(base, attempts[k]), attempts[k].ts, attempts[k].outcome.bytes)
  {
    var n := |attempts| - 1;
    if attempts[n].outcome.Written? && i == |Successes(base, attempts[..n])| {
      k := n;
    } else {
      k := SuccessOf(base, attempts[..n], i);
    }
  }

  ghost predicate AllAllowed(profiles: seq<DumpProfile>, sections: seq<Section>, attempts: seq<Attempt>) {
    forall i :: 0 <= i < |attempts| ==> Allowed(profiles, sections, attempts[i])
  }

  ghost predicate NoEqualTimes(queue: Queue) {
    forall i, j :: 0 <= i < j < |queue| ==> queue[i].ts != queue[j].ts
  }

  /** Different stores go to different files. */
  lemma DifferentPaths(base: string, profiles: seq<DumpProfile>, sections: seq<Section>, a: Attempt, b: Attempt)
    requires PrefixFree(profiles, sections) && Allowed(profiles, sections, a) && Allowed(profiles, sections, b)
    requires PathFor(base, a) == PathFor(base, b)
    ensures SameStore(a, b)
  {
    hide FileIn, EntryAt, IsDumpName, PrefixFree, FileName;
    FileDecides(base, a.dir, NameFor(a), b.dir, NameFor(b));
    NameIsDump(a.profile.section, a.component, a.profile.storage.filePrefix, a.ts);
    NameIsDump(b.profile.section, b.component, b.profile.storage.filePrefix, b.ts);
    OneOwner(profiles, sections, NameFor(a), a.profile, a.component, b.profile, b.component);
    TimeOf(base, a);
    TimeOf(base, b);
  }

  lemma {:induction false} SuccessesDiffer(base: string, profiles: seq<DumpProfile>, sections: seq<Section>,
                                           attempts: seq<Attempt>)
    requires PrefixFree(profiles, sections) && AllAllowed(profiles, sections, attempts) && DistinctStores(attempts)
    ensures DistinctPaths(Successes(base, attempts))
  {
    hide PathFor, PrefixFree, Allowed, SameStore;
    if attempts != [] {
      var n := |attempts| - 1;
      SuccessesDiffer(base, profiles, sections, attempts[..n]);
      var before := Successes(base, attempts[..n]);
      forall i | 0 <= i < |before| && attempts[n].outcome.Written?
        ensures before[i].path != PathFor(base, attempts[n])
      {
        var k := SuccessOf(base, attempts[..n], i);
        if before[i].path == PathFor(base, attempts[n]) {
          DifferentPaths(base, profiles, sections, attempts[k], attempts[n]);
        }
      }
    }
  }

  lemma SuccessesWellFormed(base: string, profiles: seq<DumpProfile>, sections: seq<Section>, attempts: seq<Attempt>)
    requires Platform(base, profiles, sections) && AllAllowed(profiles, sections, attempts) && DistinctStores(attempts)
    ensures WellFormed(Successes(base, attempts))
  {
    hide PathFor, EndsWith, Successes, Unrepeated, PrefixFree, DistinctStores;
    SuccessesDiffer(base, profiles, sections, attempts);
    var steps := Successes(base, attempts);
    forall i | 0 <= i < |steps| ensures EndsWith(steps[i].path, ".dat") && steps[i].profile in profiles {
      var k := SuccessOf(base, attempts, i);
      FileOfDump(base, attempts[k]);
    }
  }

  lemma PrefixesAllowed(profiles: seq<DumpProfile>, sections: seq<Section>, attempts: seq<Attempt>, n: nat)
    requires n <= |attempts| && AllAllowed(profiles, sections, attempts) && DistinctStores(attempts)
    ensures AllAllowed(profiles, sections, attempts[..n]) && DistinctStores(attempts[..n])
  {
    hide Allowed, SameStore;
  }

  // ---------------------------------------------------------------- index and disk in step

  /** The index is in step with the disk and with a history of stores: exactly the queued dumps are
      on disk, each queued once, by its own profile, with its own time. */
  ghost predicate Tracks(c: Contents, steps: seq<StoreStep>) {
    && FilesMatch(c, steps)
    && (forall name, e :: e in QueueOf(c.index, name) ==> IsStepOf(e, steps, name))
    && (forall name :: OneEach(QueueOf(c.index, name)))
  }

  ghost predicate IsStepOf(e: DumpEntry, steps: seq<StoreStep>, name: string) {
    exists i :: 0 <= i < |steps| && steps[i].profile.name == name && e == DumpEntry(steps[i].path, steps[i].ts)
  }

  ghost predicate OneEach(queue: Queue) {
    forall i, j :: 0 <= i < j < |queue| ==> queue[i].path != queue[j].path
  }

  lemma {:induction false} EvictDrops(queue: Queue, files: Files, budget: nat) returns (j: nat)
    ensures j <= |queue|
    ensures Evict(queue, files, budget, {}) == (queue[j..], files - QueuedPaths(queue[..j]))
    decreases |queue|
  {
    hide UsedBytes;
    if queue == [] || UsedBytes(queue, files) <= budget {
      j := 0;
      assert queue[0..] == queue && files - QueuedPaths(queue[..0]) == files;
    } else {
      var k := EvictDrops(queue[1..], files - {queue[0].path}, budget);
      j := k + 1;
      assert queue[1..][k..] == queue[j..] && queue[..j][1..] == queue[1..][..k];
      QueuedPathsCons(queue[..j]);
      assert files - {queue[0].path} - QueuedPaths(queue[1..][..k]) == files - QueuedPaths(queue[..j]);
    }
  }

  function QueuedPaths(queue: Queue): set<string> {
    set i | 0 <= i < |queue| :: queue[i].path
  }

  lemma QueuedPathsCons(queue: Queue)
    requires queue != []
    ensures QueuedPaths(queue) == {queue[0].path} + QueuedPaths(queue[1..])
  {
    forall p | p in QueuedPaths(queue) ensures p in {queue[0].path} + QueuedPaths(queue[1..]) {
      var i :| 0 <= i < |queue| && queue[i].path == p;
      if i > 0 { assert queue[1..][i - 1].path == p; }
    }
    forall p | p in QueuedPaths(queue[1..]) ensures p in QueuedPaths(queue) {
      var i :| 0 <= i < |queue| - 1 && queue[1..][i].path == p;
      assert queue[i + 1].path == p;
    }
  }

  lemma HoldsTail(queue: Queue, j: nat, path: string)
    requires OneEach(queue) && j <= |queue|
    ensures Holds(queue[j..], path) <==> Holds(queue, path) && path !in QueuedPaths(queue[..j])
  {
    if Holds(queue[j..], path) {
      var i :| 0 <= i < |queue| - j && queue[j..][i].path == path;
      assert queue[i + j].path == path;
    }
    if Holds(queue, path) && path !in QueuedPaths(queue[..j]) {
      var i :| 0 <= i < |queue| && queue[i].path == path;
      if i < j {
        Dropped(queue, j, i);
      }
      assert queue[j..][i - j].path == path;
    }
  }

  lemma Dropped(queue: Queue, j: nat, i: nat)
    requires i < j <= |queue|
    ensures queue[i].path in QueuedPaths(queue[..j])
  {
    assert queue[..j][i].path == queue[i].path;
  }

  lemma HoldsAppend(queue: Queue, e: DumpEntry, path: string)
    ensures Holds(queue + [e], path) <==> Holds(queue, path) || path == e.path
  {
    if Holds(queue, path) {
      var i :| 0 <= i < |queue| && queue[i].path == path;
      assert (queue + [e])[i].path == path;
    }
    if path == e.path {
      assert (queue + [e])[|queue|].path == path;
    }
  }

  /** What one store does to the queue of its profile. */
  lemma StoreShape(c: Contents, x: StoreStep) returns (j: nat)
    ensures var all := QueueOf(c.index, x.profile.name) + [DumpEntry(x.path, x.ts)];
            && j <= |all|
            && StoreOne(c, x) == Contents(c.index[x.profile.name := all[j..]],
                 FilesAfterWrite(c.files, x.path, Written(x.bytes), {}) - QueuedPaths(all[..j]))
  {
    hide Evict, FilesAfterWrite, BudgetBytes, StoreOne, QueuedPaths;
    var all := QueueOf(c.index, x.profile.name) + [DumpEntry(x.path, x.ts)];
    j := EvictDrops(all, FilesAfterWrite(c.files, x.path, Written(x.bytes), {}),
                    BudgetBytes(x.profile.storage.budgetMB));
    StoreUnfolds(c, x);
  }

  lemma NewestIsNew(c: Contents, steps: seq<StoreStep>, x: StoreStep, name: string)
    requires Tracks(c, steps) && WellFormed(steps + [x])
    ensures !Holds(QueueOf(c.index, name), x.path)
    ensures forall e :: e in QueueOf(c.index, name) ==> IsStepOf(e, steps, name) && IsStepOf(e, steps + [x], name)
  {
    var all := steps + [x];
    assert all[|steps|] == x;
    forall e | e in QueueOf(c.index, name) ensures IsStepOf(e, all, name) && e.path != x.path {
      var i :| 0 <= i < |steps| && steps[i].profile.name == name && e == DumpEntry(steps[i].path, steps[i].ts);
      assert all[i] == steps[i];
    }
  }

  /** One store keeps index, disk and history in step. */
  lemma StoreKeepsTracks(c: Contents, steps: seq<StoreStep>, x: StoreStep)
    requires Tracks(c, steps) && WellFormed(steps + [x])
    ensures Tracks(StoreOne(c, x), steps + [x])
  {
    hide StoreOne, FilesMatch, QueuedPaths, IsStepOf, FilesAfterWrite, WellFormed, Holds;
    var j := StoreShape(c, x);
    var all, c' := steps + [x], StoreOne(c, x);
    var longer := QueueOf(c.index, x.profile.name) + [DumpEntry(x.path, x.ts)];
    NewestIsNew(c, steps, x, x.profile.name);
    NewestIsStep(steps, x);
    LongerOneEach(QueueOf(c.index, x.profile.name), DumpEntry(x.path, x.ts));
    assert QueueOf(c'.index, x.profile.name) == longer[j..];
    forall name, e | e in QueueOf(c'.index, name) ensures IsStepOf(e, all, name) {
      NewestIsNew(c, steps, x, name);
      if name == x.profile.name {
        assert e in longer;
      }
    }
    forall name ensures OneEach(QueueOf(c'.index, name)) {
      assert name != x.profile.name ==> QueueOf(c'.index, name) == QueueOf(c.index, name);
    }
    FilesTrack(c, steps, x, j);
  }

  lemma NewestIsStep(steps: seq<StoreStep>, x: StoreStep)
    ensures IsStepOf(DumpEntry(x.path, x.ts), steps + [x], x.profile.name)
  {
    assert (steps + [x])[|steps|] == x;
  }

  lemma LongerOneEach(queue: Queue, e: DumpEntry)
    requires OneEach(queue) && !Holds(queue, e.path)
    ensures OneEach(queue + [e]) && forall j :: 0 <= j <= |queue + [e]| ==> OneEach((queue + [e])[j..])
  {
  }

  lemma FilesTrack(c: Contents, steps: seq<StoreStep>, x: StoreStep, j: nat)
    requires Tracks(c, steps) && WellFormed(steps + [x])
    requires var longer := QueueOf(c.index, x.profile.name) + [DumpEntry(x.path, x.ts)];
             && j <= |longer|
             && StoreOne(c, x) == Contents(c.index[x.profile.name := longer[j..]],
                  FilesAfterWrite(c.files, x.path, Written(x.bytes), {}) - QueuedPaths(longer[..j]))
    ensures FilesMatch(StoreOne(c, x), steps + [x])
  {
    hide StoreOne, QueuedPaths, IsStepOf, Holds, OneEach;
    var all, c' := steps + [x], StoreOne(c, x);
    var queue := QueueOf(c.index, x.profile.name);
    var longer := queue + [DumpEntry(x.path, x.ts)];
    NewestIsNew(c, steps, x, x.profile.name);
    LongerOneEach(queue, DumpEntry(x.path, x.ts));
    forall i | 0 <= i < |all|
      ensures all[i].path in c'.files <==> Holds(QueueOf(c'.index, all[i].profile.name), all[i].path)
      ensures all[i].path in c'.files ==> c'.files[all[i].path] == all[i].bytes
    {
      var s := all[i];
      assert all[|steps|] == x;
      HoldsTail(longer, j, s.path);
      HoldsAppend(queue, DumpEntry(x.path, x.ts), s.path);
      if i < |steps| {
        assert s == steps[i] && s.path != x.path;
        TempIsNoDump(x.path, s.path);
        if s.profile.name != x.profile.name {
          ForeignNotQueued(c, steps, x, i);
          assert s.path !in QueuedPaths(longer[..j]) by {
            NotAmongDropped(longer, j, s.path);
          }
        }
      }
    }
  }

  lemma NotAmongDropped(queue: Queue, j: nat, path: string)
    requires j <= |queue| && !Holds(queue, path)
    ensures path !in QueuedPaths(queue[..j])
  {
  }

  lemma ForeignNotQueued(c: Contents, steps: seq<StoreStep>, x: StoreStep, i: nat)
    requires Tracks(c, steps) && WellFormed(steps + [x]) && i < |steps| && steps[i].profile.name != x.profile.name
    ensures !Holds(QueueOf(c.index, x.profile.name), steps[i].path)
  {
    hide FilesMatch;
    var all := steps + [x];
    forall e | e in QueueOf(c.index, x.profile.name) ensures e.path != steps[i].path {
      var k :| 0 <= k < |steps| && steps[k].profile.name == x.profile.name
         && e == DumpEntry(steps[k].path, steps[k].ts);
      assert all[k] == steps[k] && all[i] == steps[i];
    }
  }

  /** A failed write changes nothing but its temporary file. */
  lemma FailureKeepsInStep(base: string, c: Contents, steps: seq<StoreStep>, n: nat, a: Attempt)
    requires WellFormed(steps) && !a.outcome.Written?
    ensures Tracks(c, steps) ==> Tracks(AttemptOne(base, c, a), steps)
    ensures InStep(c, steps, n) ==> InStep(AttemptOne(base, c, a), steps, n)
  {
    hide LongestSuffix, Holds, EndsWith, Of, TempPath, PathFor, IsStepOf, OneEach, StoredSince, Entries;
    forall i | 0 <= i < |steps| ensures TempPath(PathFor(base, a)) != steps[i].path {
      TempIsNoDump(PathFor(base, a), steps[i].path);
    }
  }

  function StepFor(base: string, a: Attempt): StoreStep
    requires a.outcome.Written?
  {
    StoreStep(a.profile, PathFor(base, a), a.ts, a.outcome.bytes)
  }

  lemma OneAttemptKeeps(base: string, c: Contents, steps: seq<StoreStep>, n: nat, a: Attempt)
    requires WellFormed(steps) && (a.outcome.Written? ==> WellFormed(steps + [StepFor(base, a)]))
    ensures var now := if a.outcome.Written? then steps + [StepFor(base, a)] else steps;
            && (Tracks(c, steps) ==> Tracks(AttemptOne(base, c, a), now))
            && (InStep(c, steps, n) ==> InStep(AttemptOne(base, c, a), now, n))
  {
    hide Tracks, InStep, WellFormed, Stored, PathFor;
    if a.outcome.Written? {
      if Tracks(c, steps) {
        StoreKeepsTracks(c, steps, StepFor(base, a));
      }
      if InStep(c, steps, n) {
        StoreKeepsInStep(c, steps, n, StepFor(base, a));
      }
    } else {
      FailureKeepsInStep(base, c, steps, n, a);
    }
  }

  /** Attempts made after the first n, among them failed ones, keep index and disk in step with
      everything ever stored. */
  lemma {:induction false} AttemptsKeepTracks(base: string, c: Contents, profiles: seq<DumpProfile>,
                                              sections: seq<Section>,
                                              attempts: seq<Attempt>, n: nat)
    requires Platform(base, profiles, sections) && n <= |attempts|
    requires AllAllowed(profiles, sections, attempts) && DistinctStores(attempts)
    requires Tracks(c, Successes(base, attempts[..n]))
    ensures Tracks(AttemptAll(base, c, attempts[n..]), Successes(base, attempts))
    decreases |attempts|
  {
    hide InStep, Tracks, Platform, WellFormed, AttemptOne, AllAllowed, DistinctStores, PathFor;
    if n == |attempts| {
      assert attempts[..n] == attempts;
    } else {
      var m := |attempts| - 1;
      assert attempts[..m][..n] == attempts[..n] && attempts[n..][..|attempts[n..]| - 1] == attempts[..m][n..];
      PrefixesAllowed(profiles, sections, attempts, m);
      AttemptsKeepTracks(base, c, profiles, sections, attempts[..m], n);
      SuccessesWellFormed(base, profiles, sections, attempts[..m]);
      SuccessesWellFormed(base, profiles, sections, attempts);
      OneAttemptKeeps(base, AttemptAll(base, c, attempts[..m][n..]), Successes(base, attempts[..m]), 0, attempts[m]);
    }
  }

  /** Failed stores among successful ones do not disturb the longest suffixes. */
  lemma {:induction false} AttemptsKeepInStep(base: string, c: Contents, past: seq<StoreStep>, attempts: seq<Attempt>)
    requires Describes(c, past) && WellFormed(past + Successes(base, attempts))
    ensures InStep(AttemptAll(base, c, attempts), past + Successes(base, attempts), |past|)
    decreases |attempts|
  {
    hide InStep, Describes, WellFormed, AttemptOne, PathFor;
    if attempts == [] {
      assert past + [] == past;
      StartInStep(c, past);
    } else {
      var n := |attempts| - 1;
      var before := past + Successes(base, attempts[..n]);
      if attempts[n].outcome.Written? {
        assert past + Successes(base, attempts) == before + [StepFor(base, attempts[n])];
        WellFormedPrefix(past + Successes(base, attempts));
      }
      AttemptsKeepInStep(base, c, past, attempts[..n]);
      OneAttemptKeeps(base, AttemptAll(base, c, attempts[..n]), before, |past|, attempts[n]);
    }
  }

  // ---------------------------------------------------------------- whose files are on disk

  lemma NewFiles(base: string, c: Contents, a: Attempt)
    ensures AttemptOne(base, c, a).files.Keys
         <= c.files.Keys + if a.outcome.Written? then {PathFor(base, a)} else {TempPath(PathFor(base, a))}
  {
    hide Evict, PathFor, TempPath;
    if a.outcome.Written? {
      var queue := QueueOf(c.index, a.profile.name) + [DumpEntry(PathFor(base, a), a.ts)];
      EvictOnlyRemoves(queue, FilesAfterWrite(c.files, PathFor(base, a), a.outcome, {}),
                       BudgetBytes(a.profile.storage.budgetMB), {});
    }
  }

  lemma TempIsUnclaimed(base: string, profiles: seq<DumpProfile>, sections: seq<Section>, a: Attempt, dir: string,
                        name: string)
    requires Claimed(profiles, sections, name)
    ensures FileIn(base, dir, name) != TempPath(PathFor(base, a))
  {
    hide FileIn;
    var p, c :| Serves(profiles, sections, p, c) && IsDumpName(name, PrefixOf(p, c));
    FileEndsLikeName(base, dir, name);
    var temp := TempPath(PathFor(base, a));
    assert temp[|temp| - 4..] == ".tmp";
  }

  lemma {:induction false} FilesStayOurs(base: string, c: Contents, profiles: seq<DumpProfile>, sections: seq<Section>,
                                         attempts: seq<Attempt>, n: nat)
    requires n <= |attempts| && OnlyOurs(base, profiles, sections, c.files, Successes(base, attempts[..n]))
    ensures OnlyOurs(base, profiles, sections, AttemptAll(base, c, attempts[n..]).files, Successes(base, attempts))
    decreases |attempts|
  {
    hide Claimed, AttemptOne, PathFor, TempPath, FileIn, PathsOf, IsName;
    if n == |attempts| {
      assert attempts[..n] == attempts;
    } else {
      var m := |attempts| - 1;
      assert attempts[..m][..n] == attempts[..n] && attempts[n..][..|attempts[n..]| - 1] == attempts[..m][n..];
      FilesStayOurs(base, c, profiles, sections, attempts[..m], n);
      var before := AttemptAll(base, c, attempts[..m][n..]);
      var a := attempts[m];
      NewFiles(base, before, a);
      if a.outcome.Written? {
        PathsOfAppend(Successes(base, attempts[..m]), StepFor(base, a));
      }
      forall dir, name | IsName(dir) && IsName(name)
         && FileIn(base, dir, name) in AttemptAll(base, c, attempts[n..]).files
                         && Claimed(profiles, sections, name)
        ensures FileIn(base, dir, name) in PathsOf(Successes(base, attempts))
      {
        TempIsUnclaimed(base, profiles, sections, a, dir, name);
      }
    }
  }

  // ---------------------------------------------------------------- what the scan finds

  lemma {:induction false} MatchingMembers(base: string, files: seq<FileAt>, prefix: string, e: DumpEntry)
    ensures e in Matching(base, files, prefix)
       <==> exists f :: f in files && IsDumpName(f.name, prefix) && e == EntryAt(base, f)
  {
    hide IsDumpName, EntryAt;
    if files != [] {
      var n := |files| - 1;
      MatchingMembers(base, files[..n], prefix, e);
      assert files == files[..n] + [files[n]];
    }
  }

  lemma {:induction false} FoundMembers(base: string, files: seq<FileAt>, p: DumpProfile, components: seq<string>,
                                        e: DumpEntry)
    ensures e in Found(base, files, p, components)
       <==> exists f, c :: f in files && c in components && IsDumpName(f.name, PrefixOf(p, c)) && e == EntryAt(base, f)
    decreases |components|
  {
    hide IsDumpName, EntryAt, Matching, NamePrefix;
    if components != [] {
      var n := |components| - 1;
      FoundMembers(base, files, p, components[..n], e);
      MatchingMembers(base, files, PrefixOf(p, components[n]), e);
      assert components == components[..n] + [components[n]];
    }
  }

  /** No temporary file, nor any other file that is not a .dat, is ever indexed. */
  lemma OnlyDatFilesAreIndexed(index: map<string, Queue>, base: string, p: DumpProfile, sections: seq<Section>,
                               tree: seq<BootDir>, e: DumpEntry)
    requires Rebuilt(index, base, p, sections, tree) && e in QueueOf(index, p.name)
    ensures EndsWith(e.path, ".dat") && !EndsWith(e.path, ".tmp")
  {
    hide ExtractTimestamp, SortedByTime, Found, PrefixOf, EndsWith, ListedPath, Plain, FileIn;
    var components := ComponentsOf(sections, p.section);
    assert e in multiset(Found(base, AllFiles(tree), p, components));
    FoundMembers(base, AllFiles(tree), p, components, e);
    var f, c :| f in AllFiles(tree) && c in components && IsDumpName(f.name, PrefixOf(p, c)) && e == EntryAt(base, f);
    ListedIsStored(base, f.dir, f.name);
    NamesEndInDat(f.name, PrefixOf(p, c));
    FileEndsLikeName(base, f.dir, f.name);
  }

  lemma NamesEndInDat(name: string, prefix: string)
    requires IsDumpName(name, prefix)
    ensures EndsWith(name, ".dat")
  {
  }

  lemma {:induction false} MatchingUnrepeated(base: string, files: seq<FileAt>, prefix: string)
    requires Unrepeated(files) && forall f :: f in files ==> IsName(f.dir) && IsName(f.name)
    ensures Unrepeated(Matching(base, files, prefix))
  {
    hide IsDumpName, EntryAt, FileIn, IsName;
    if files != [] {
      var n := |files| - 1;
      MatchingUnrepeated(base, files[..n], prefix);
      var e := EntryAt(base, files[n]);
      MatchingMembers(base, files[..n], prefix, e);
      if e in Matching(base, files[..n], prefix) {
        var f :| f in files[..n] && IsDumpName(f.name, prefix) && e == EntryAt(base, f);
        SameEntrySameFile(base, f, files[n]);
        assert false;
      }
      AppendUnrepeated(Matching(base, files[..n], prefix), [e]);
    }
  }

  lemma AppendUnrepeated<T>(a: seq<T>, b: seq<T>)
    requires Unrepeated(a) && Unrepeated(b) && forall x :: x in a ==> x !in b
    ensures Unrepeated(a + b)
  {
    forall i, j | 0 <= i < j < |a + b| ensures (a + b)[i] != (a + b)[j] {
      if i < |a| <= j {
        assert (a + b)[i] in a && (a + b)[j] in b;
      }
    }
  }

  lemma {:induction false} FoundUnrepeated(base: string, profiles: seq<DumpProfile>, sections: seq<Section>,
                                           files: seq<FileAt>, p: DumpProfile, components: seq<string>)
    requires Unrepeated(files) && forall f :: f in files ==> IsName(f.dir) && IsName(f.name)
    requires PrefixFree(profiles, sections)
    requires Unrepeated(components) && forall c :: c in components ==> Serves(profiles, sections, p, c)
    ensures Unrepeated(Found(base, files, p, components))
    decreases |components|
  {
    hide IsDumpName, EntryAt, Matching, NamePrefix, PrefixFree, Serves, IsName;
    if components != [] {
      var n := |components| - 1;
      FoundUnrepeated(base, profiles, sections, files, p, components[..n]);
      var last := Matching(base, files, PrefixOf(p, components[n]));
      MatchingUnrepeated(base, files, PrefixOf(p, components[n]));
      forall e | e in Found(base, files, p, components[..n]) ensures e !in last {
        FoundMembers(base, files, p, components[..n], e);
        MatchingMembers(base, files, PrefixOf(p, components[n]), e);
        if e in last {
          var f, c :| f in files && c in components[..n] && IsDumpName(f.name, PrefixOf(p, c)) && e == EntryAt(base, f);
          var g :| g in files && IsDumpName(g.name, PrefixOf(p, components[n])) && e == EntryAt(base, g);
          SameEntrySameFile(base, f, g);
          OneOwner(profiles, sections, f.name, p, c, p, components[n]);
          assert false;
        }
      }
      AppendUnrepeated(Found(base, files, p, components[..n]), last);
    }
  }

  lemma SameEntrySameFile(base: string, f: FileAt, g: FileAt)
    requires IsName(f.dir) && IsName(f.name) && IsName(g.dir) && IsName(g.name)
    requires EntryAt(base, f) == EntryAt(base, g)
    ensures f == g
  {
    hide ExtractTimestamp, ListedPath, Plain, FileIn, IsName;
    ListedIsStored(base, f.dir, f.name);
    ListedIsStored(base, g.dir, g.name);
    FileDecides(base, f.dir, f.name, g.dir, g.name);
  }

  /** No file name belongs to two profiles or components. */
  lemma OneOwner(profiles: seq<DumpProfile>, sections: seq<Section>, name: string,
                 p: DumpProfile, c: string, q: DumpProfile, d: string)
    requires PrefixFree(profiles, sections) && Serves(profiles, sections, p, c) && Serves(profiles, sections, q, d)
    requires IsDumpName(name, PrefixOf(p, c)) && IsDumpName(name, PrefixOf(q, d))
    ensures p == q && c == d
  {
    TwoPrefixes(name, PrefixOf(p, c), PrefixOf(q, d));
  }

  // ---------------------------------------------------------------- the theorem

  /** Two queues in time order with the same elements and no two equal times are one queue. */
  lemma {:induction false} SortedUnique(a: Queue, b: Queue)
    requires multiset(a) == multiset(b) && SortedByTime(b) && SortedByTime(a)
    requires NoEqualTimes(a)
    ensures a == b
  {
    hide SortedByTime, NoEqualTimes;
    SameLength(a, b);
    if a != [] {
      var n := |a| - 1;
      SameLast(a, b);
      OrderedFront(a);
      OrderedFront(b);
      SameFront(a, b);
      SortedUnique(a[..n], b[..n]);
      FrontAndLast(a, b);
    }
  }

  lemma OrderedFront(a: Queue)
    requires SortedByTime(a) && a != []
    ensures SortedByTime(a[..|a| - 1])
    ensures NoEqualTimes(a) ==> NoEqualTimes(a[..|a| - 1])
  {
  }

  lemma SameLast(a: Queue, b: Queue)
    requires multiset(a) == multiset(b) && |a| == |b| > 0 && SortedByTime(b) && SortedByTime(a)
    requires NoEqualTimes(a)
    ensures a[|a| - 1] == b[|b| - 1]
  {
    var n := |a| - 1;
    assert a[n] in multiset(b) && b[n] in multiset(a);
    var i :| 0 <= i < |a| && a[i] == b[n];
    var j :| 0 <= j < |b| && b[j] == a[n];
  }

  lemma SameFront(a: Queue, b: Queue)
    requires multiset(a) == multiset(b) && |a| == |b| > 0 && a[|a| - 1] == b[|b| - 1]
    ensures multiset(a[..|a| - 1]) == multiset(b[..|b| - 1])
  {
    DropLast(a);
    DropLast(b);
  }

  lemma DropLast(a: Queue)
    requires a != []
    ensures multiset(a[..|a| - 1]) == multiset(a) - multiset{a[|a| - 1]}
  {
    assert a == a[..|a| - 1] + [a[|a| - 1]];
  }

  lemma FrontAndLast(a: Queue, b: Queue)
    requires |a| == |b| > 0 && a[..|a| - 1] == b[..|b| - 1] && a[|a| - 1] == b[|b| - 1]
    ensures a == b
  {
    assert a == a[..|a| - 1] + [a[|a| - 1]];
  }

  lemma SameLength<T>(a: seq<T>, b: seq<T>)
    requires multiset(a) == multiset(b)
    ensures |a| == |b|
  {
    assert |multiset(a)| == |a| && |multiset(b)| == |b|;
  }

  lemma SameMultiset<T>(a: seq<T>, b: seq<T>)
    requires Unrepeated(a) && Unrepeated(b) && forall x :: x in a <==> x in b
    ensures multiset(a) == multiset(b)
  {
    forall x ensures multiset(a)[x] == multiset(b)[x] {
      CountOfUnrepeated(a, x);
      CountOfUnrepeated(b, x);
    }
  }

  lemma {:induction false} CountOfUnrepeated<T>(a: seq<T>, x: T)
    requires Unrepeated(a)
    ensures multiset(a)[x] == if x in a then 1 else 0
  {
    if a != [] {
      var n := |a| - 1;
      assert a == a[..n] + [a[n]];
      CountOfUnrepeated(a[..n], x);
    }
  }

  /** A store after some allowed attempts, its disk as the startup scan will see it. */
  ghost predicate Setting(base: string, profiles: seq<DumpProfile>, sections: seq<Section>, tree: seq<BootDir>,
                          c: Contents, attempts: seq<Attempt>) {
    && Platform(base, profiles, sections)
    && AllAllowed(profiles, sections, attempts) && DistinctStores(attempts)
    && Tracks(c, Successes(base, attempts))
    && OnlyOurs(base, profiles, sections, c.files, Successes(base, attempts))
    && Walks(base, tree, c.files)
  }

  lemma StepOfEntry(c: Contents, steps: seq<StoreStep>, name: string, e: DumpEntry) returns (m: nat)
    requires Tracks(c, steps) && e in QueueOf(c.index, name)
    ensures m < |steps| && steps[m].profile.name == name && e == DumpEntry(steps[m].path, steps[m].ts)
    ensures steps[m].path in c.files
  {
    assert IsStepOf(e, steps, name);
    m :| 0 <= m < |steps| && steps[m].profile.name == name && e == DumpEntry(steps[m].path, steps[m].ts);
    assert Holds(QueueOf(c.index, name), e.path);
  }

  /** A queued dump is found by the scan. */
  lemma QueuedIsFound(base: string, profiles: seq<DumpProfile>, sections: seq<Section>, tree: seq<BootDir>,
                      c: Contents, attempts: seq<Attempt>, p: DumpProfile, e: DumpEntry)
    requires Setting(base, profiles, sections, tree, c, attempts) && p in profiles
    requires e in QueueOf(c.index, p.name)
    ensures e in Found(base, AllFiles(tree), p, ComponentsOf(sections, p.section))
  {
    hide Tracks, OnlyOurs, Walks, Found, DistinctStores, FileIn, IsDumpName, EntryAt, Successes, PrefixFree, IsName,
      QueueOf;
    var m := StepOfEntry(c, Successes(base, attempts), p.name, e);
    var k := SuccessOf(base, attempts, m);
    var a := attempts[k];
    SameName(profiles, p, a.profile);
    TimeOf(base, a);
    NameIsDump(a.profile.section, a.component, a.profile.storage.filePrefix, a.ts);
    var f := FileAt(a.dir, NameFor(a));
    WalkFinds(base, tree, c.files, a.dir, NameFor(a));
    FoundMembers(base, AllFiles(tree), p, ComponentsOf(sections, p.section), e);
    assert e == EntryAt(base, f) && IsDumpName(f.name, PrefixOf(p, a.component));
  }

  lemma SameName(profiles: seq<DumpProfile>, p: DumpProfile, q: DumpProfile)
    requires forall i, j :: 0 <= i < j < |profiles| ==> profiles[i].name != profiles[j].name
    requires p in profiles && q in profiles && p.name == q.name
    ensures p == q
  {
  }

  lemma WalkFinds(base: string, tree: seq<BootDir>, files: Files, dir: string, name: string)
    requires Walks(base, tree, files) && base != "" && IsName(dir) && IsName(name) && FileIn(base, dir, name) in files
    ensures FileAt(dir, name) in AllFiles(tree)
  {
  }

  lemma StepOf(steps: seq<StoreStep>, path: string) returns (m: nat)
    requires path in PathsOf(steps)
    ensures m < |steps| && steps[m].path == path
  {
    m :| 0 <= m < |steps| && steps[m].path == path;
  }

  /** A dump the scan finds is queued. */
  lemma FoundIsQueued(base: string, profiles: seq<DumpProfile>, sections: seq<Section>, tree: seq<BootDir>,
                      c: Contents, attempts: seq<Attempt>, p: DumpProfile, e: DumpEntry)
    requires Setting(base, profiles, sections, tree, c, attempts) && p in profiles
    requires e in Found(base, AllFiles(tree), p, ComponentsOf(sections, p.section))
    ensures e in QueueOf(c.index, p.name)
  {
    hide Tracks, Found, DistinctStores, FileIn, IsDumpName, EntryAt, WellFormed, Successes, PrefixFree, PathsOf, IsName,
      AllFiles, ComponentsOf, QueueOf;
    var components := ComponentsOf(sections, p.section);
    var steps := Successes(base, attempts);
    FoundMembers(base, AllFiles(tree), p, components, e);
    var f, d :| f in AllFiles(tree) && d in components && IsDumpName(f.name, PrefixOf(p, d)) && e == EntryAt(base, f);
    assert Claimed(profiles, sections, f.name) by {
      assert Serves(profiles, sections, p, d);
    }
    assert FileIn(base, f.dir, f.name) in PathsOf(steps);
    var m := StepOf(steps, FileIn(base, f.dir, f.name));
    var k := SuccessOf(base, attempts, m);
    var a := attempts[k];
    FileDecides(base, f.dir, f.name, a.dir, NameFor(a));
    NameIsDump(a.profile.section, a.component, a.profile.storage.filePrefix, a.ts);
    OneOwner(profiles, sections, f.name, p, d, a.profile, a.component);
    TimeOf(base, a);
    SuccessesWellFormed(base, profiles, sections, attempts);
    FileIsQueued(c, steps, m);
  }

  lemma FileIsQueued(c: Contents, steps: seq<StoreStep>, m: nat)
    requires Tracks(c, steps) && WellFormed(steps) && m < |steps| && steps[m].path in c.files
    ensures DumpEntry(steps[m].path, steps[m].ts) in QueueOf(c.index, steps[m].profile.name)
  {
    hide IsStepOf, OneEach, WellFormed, QueueOf;
    var queue := QueueOf(c.index, steps[m].profile.name);
    var i :| 0 <= i < |queue| && queue[i].path == steps[m].path;
    var n := StepOfEntry(c, steps, steps[m].profile.name, queue[i]);
    SamePathSameStep(steps, m, n);
  }

  lemma SamePathSameStep(steps: seq<StoreStep>, m: nat, n: nat)
    requires WellFormed(steps) && m < |steps| && n < |steps| && steps[m].path == steps[n].path
    ensures m == n
  {
  }

  lemma SameElements(base: string, profiles: seq<DumpProfile>, sections: seq<Section>, tree: seq<BootDir>,
                     c: Contents, attempts: seq<Attempt>, p: DumpProfile)
    requires Setting(base, profiles, sections, tree, c, attempts) && p in profiles
    ensures var found := Found(base, AllFiles(tree), p, ComponentsOf(sections, p.section));
            forall e :: e in QueueOf(c.index, p.name) <==> e in found
  {
    hide Setting, Found, QueueOf;
    forall e
      ensures e in QueueOf(c.index, p.name) <==> e in Found(base, AllFiles(tree), p, ComponentsOf(sections, p.section))
    {
      if e in QueueOf(c.index, p.name) {
        QueuedIsFound(base, profiles, sections, tree, c, attempts, p, e);
      }
      if e in Found(base, AllFiles(tree), p, ComponentsOf(sections, p.section)) {
        FoundIsQueued(base, profiles, sections, tree, c, attempts, p, e);
      }
    }
  }

  /** A queue's times are those of the stores of its profile. */
  lemma QueueTimesDiffer(base: string, c: Contents, attempts: seq<Attempt>, name: string)
    requires Tracks(c, Successes(base, attempts)) && DistinctTimes(attempts, name)
    ensures NoEqualTimes(QueueOf(c.index, name))
  {
    hide PathFor, FilesMatch, IsStepOf, Successes, DistinctTimes;
    var queue := QueueOf(c.index, name);
    forall i, j | 0 <= i < j < |queue| ensures queue[i].ts != queue[j].ts {
      var m := StepOfEntry(c, Successes(base, attempts), name, queue[i]);
      var n := StepOfEntry(c, Successes(base, attempts), name, queue[j]);
      var k := SuccessOf(base, attempts, m);
      var l := SuccessOf(base, attempts, n);
      if queue[i].ts == queue[j].ts {
        TimesTellApart(attempts, name, k, l);
      }
    }
  }

  lemma TimesTellApart(attempts: seq<Attempt>, name: string, k: nat, l: nat)
    requires DistinctTimes(attempts, name) && k < |attempts| && l < |attempts|
    requires StoresFor(attempts[k], name) && StoresFor(attempts[l], name) && attempts[k].ts == attempts[l].ts
    ensures k == l
  {
  }

  /** In such a setting the rebuilt queue of a profile has the dumps of the running one. Where no two
      of that profile carry the same time, it is the running one exactly if that was in time order. */
  lemma RebuiltAgreesIff(base: string, profiles: seq<DumpProfile>, sections: seq<Section>, tree: seq<BootDir>,
                         c: Contents, attempts: seq<Attempt>, index: map<string, Queue>, p: DumpProfile)
    requires Setting(base, profiles, sections, tree, c, attempts)
    requires p in profiles && Rebuilt(index, base, p, sections, tree)
    ensures var running := QueueOf(c.index, p.name);
            && multiset(QueueOf(index, p.name)) == multiset(running)
            && (DistinctTimes(attempts, p.name) ==> (QueueOf(index, p.name) == running <==> SortedByTime(running)))
  {
    hide AllAllowed, DistinctTimes, OnlyOurs, FilesMatch, IsStepOf, PrefixFree, Found, SortedByTime, FileIn, EntryAt,
      QueueOf, IsName;
    var components := ComponentsOf(sections, p.section);
    var running := QueueOf(c.index, p.name);
    SameElements(base, profiles, sections, tree, c, attempts, p);
    FoundUnrepeated(base, profiles, sections, AllFiles(tree), p, components);
    QueueUnrepeated(running);
    SameMultiset(running, Found(base, AllFiles(tree), p, components));
    if DistinctTimes(attempts, p.name) && SortedByTime(running) {
      QueueTimesDiffer(base, c, attempts, p.name);
      SortedUnique(running, QueueOf(index, p.name));
    }
  }

  /** With an empty base path the walk cannot begin: the rebuilt queue is empty, whatever was stored. */
  lemma EmptyBaseFindsNothing(sections: seq<Section>, tree: seq<BootDir>, files: Files, index: map<string, Queue>,
                              p: DumpProfile)
    requires Walks("", tree, files) && Rebuilt(index, "", p, sections, tree)
    ensures QueueOf(index, p.name) == []
  {
    hide ComponentsOf, QueueOf;
    NothingFound("", p, ComponentsOf(sections, p.section));
    SameLength(QueueOf(index, p.name), []);
  }

  lemma {:induction false} NothingFound(base: string, p: DumpProfile, components: seq<string>)
    ensures Found(base, AllFiles([]), p, components) == []
    decreases |components|
  {
    if components != [] {
      NothingFound(base, p, components[..|components| - 1]);
    }
  }

  lemma QueueUnrepeated(queue: Queue)
    requires OneEach(queue)
    ensures Unrepeated(queue)
  {
  }

  /** Restarting after any run of stores, failed ones among them, from any state in step with the
      stores before: nothing is lost or invented, and the order is kept exactly where it was that of time. */
  lemma RestartAgreesIff(base: string, profiles: seq<DumpProfile>, sections: seq<Section>, tree: seq<BootDir>,
                         start: Contents, attempts: seq<Attempt>, n: nat, index: map<string, Queue>, p: DumpProfile)
    requires Platform(base, profiles, sections) && n <= |attempts|
    requires AllAllowed(profiles, sections, attempts) && DistinctStores(attempts)
    requires Tracks(start, Successes(base, attempts[..n]))
    requires OnlyOurs(base, profiles, sections, start.files, Successes(base, attempts[..n]))
    requires Walks(base, tree, AttemptAll(base, start, attempts[n..]).files)
    requires p in profiles && Rebuilt(index, base, p, sections, tree)
    ensures var running := QueueOf(AttemptAll(base, start, attempts[n..]).index, p.name);
            && multiset(QueueOf(index, p.name)) == multiset(running)
            && (DistinctTimes(attempts, p.name) ==> (QueueOf(index, p.name) == running <==> SortedByTime(running)))
  {
    hide AttemptAll, AllAllowed, DistinctStores, DistinctTimes, OnlyOurs, Tracks, Platform, Rebuilt, SortedByTime,
      Walks,
      QueueOf, Successes;
    AttemptsKeepTracks(base, start, profiles, sections, attempts, n);
    FilesStayOurs(base, start, profiles, sections, attempts, n);
    RebuiltAgreesIff(base, profiles, sections, tree, AttemptAll(base, start, attempts[n..]), attempts, index, p);
  }

  // ---------------------------------------------------------------- runs and restarts in turn

  /** One store in time order keeps the queue in time order. */
  lemma StoreKeepsSorted(c: Contents, steps: seq<StoreStep>, x: StoreStep, name: string)
    requires Tracks(c, steps) && SortedByTime(QueueOf(c.index, name))
    requires x.profile.name == name ==>
               forall i :: 0 <= i < |steps| && steps[i].profile.name == name ==> steps[i].ts <= x.ts
    ensures SortedByTime(QueueOf(StoreOne(c, x).index, name))
  {
    hide FilesMatch, StoreOne, FilesAfterWrite, QueuedPaths;
    var j := StoreShape(c, x);
    var queue := QueueOf(c.index, name);
    if x.profile.name == name {
      forall i | 0 <= i < |queue| ensures queue[i].ts <= x.ts {
        var m := StepOfEntry(c, steps, name, queue[i]);
      }
    }
  }

  lemma {:induction false} AttemptsKeepSorted(base: string, c: Contents, profiles: seq<DumpProfile>,
                                              sections: seq<Section>,
                                              attempts: seq<Attempt>, n: nat, name: string)
    requires Platform(base, profiles, sections) && n <= |attempts|
    requires AllAllowed(profiles, sections, attempts) && DistinctStores(attempts) && InTimeOrder(attempts, name)
    requires Tracks(c, Successes(base, attempts[..n])) && SortedByTime(QueueOf(c.index, name))
    ensures SortedByTime(QueueOf(AttemptAll(base, c, attempts[n..]).index, name))
    decreases |attempts|
  {
    hide Platform, AllAllowed, DistinctStores, SortedByTime, Tracks, Successes, QueueOf, StoreOne, Stored, PathFor;
    if n < |attempts| {
      var m := |attempts| - 1;
      assert attempts[..m][..n] == attempts[..n] && attempts[n..][..|attempts[n..]| - 1] == attempts[..m][n..];
      PrefixesAllowed(profiles, sections, attempts, m);
      AttemptsKeepSorted(base, c, profiles, sections, attempts[..m], n, name);
      AttemptsKeepTracks(base, c, profiles, sections, attempts[..m], n);
      var a, before := attempts[m], AttemptAll(base, c, attempts[..m][n..]);
      if a.outcome.Written? {
        var steps := Successes(base, attempts[..m]);
        forall i | 0 <= i < |steps| && steps[i].profile.name == name && a.profile.name == name
          ensures steps[i].ts <= a.ts
        {
          var k := SuccessOf(base, attempts[..m], i);
          assert StoresFor(attempts[k], name) && StoresFor(attempts[m], name);
        }
        StoreKeepsSorted(before, steps, StepFor(base, a), name);
        AttemptIsStore(base, before, a);
      } else {
        FailureKeepsIndex(base, before, a);
      }
    }
  }

  lemma AttemptIsStore(base: string, c: Contents, a: Attempt)
    requires a.outcome.Written?
    ensures AttemptOne(base, c, a) == StoreOne(c, StepFor(base, a))
  {
  }

  lemma FailureKeepsIndex(base: string, c: Contents, a: Attempt)
    requires !a.outcome.Written?
    ensures AttemptOne(base, c, a).index == c.index
  {
  }

  /** c is what a restart makes of the store's disk. */
  ghost predicate Restarted(base: string, profiles: seq<DumpProfile>, sections: seq<Section>, tree: seq<BootDir>,
                            before: Contents, c: Contents) {
    && c.files == before.files && Walks(base, tree, before.files)
    && (forall p :: p in profiles ==> Rebuilt(c.index, base, p, sections, tree))
    && (forall name :: QueueOf(c.index, name) != [] ==> exists p :: p in profiles && p.name == name)
  }

  ghost predicate Session(base: string, profiles: seq<DumpProfile>, sections: seq<Section>, before: Contents,
                          attempts: seq<Attempt>, c: Contents) {
    exists tree :: Restarted(base, profiles, sections, tree, AttemptAll(base, before, attempts), c)
  }

  /** Boot after boot: the stores of each session, then a restart. */
  ghost predicate Lives(base: string, profiles: seq<DumpProfile>, sections: seq<Section>, start: Contents,
                        sessions: seq<seq<Attempt>>, c: Contents)
    decreases |sessions|
  {
    if sessions == [] then c == start
    else
      var earlier, last := sessions[..|sessions| - 1], sessions[|sessions| - 1];
      exists before :: Lives(base, profiles, sections, start, earlier, before)
         && Session(base, profiles, sections, before, last, c)
  }

  function Flat(sessions: seq<seq<Attempt>>): seq<Attempt> {
    if sessions == [] then [] else Flat(sessions[..|sessions| - 1]) + sessions[|sessions| - 1]
  }

  lemma RestartKeepsTracks(base: string, profiles: seq<DumpProfile>, sections: seq<Section>, tree: seq<BootDir>,
                           before: Contents, attempts: seq<Attempt>, c: Contents)
    requires Setting(base, profiles, sections, tree, before, attempts)
    requires Restarted(base, profiles, sections, tree, before, c)
    requires forall name :: QueueOf(before.index, name) != [] ==> exists p :: p in profiles && p.name == name
    ensures Tracks(c, Successes(base, attempts))
    ensures forall name :: multiset(QueueOf(c.index, name)) == multiset(QueueOf(before.index, name))
  {
    hide OnlyOurs, Walks, Rebuilt, Platform, AllAllowed, DistinctStores, FilesMatch, IsStepOf, OneEach, QueueOf,
      Successes;
    forall name ensures multiset(QueueOf(c.index, name)) == multiset(QueueOf(before.index, name)) {
      if p :| p in profiles && p.name == name {
        RebuiltAgreesIff(base, profiles, sections, tree, before, attempts, c.index, p);
      }
    }
    SameQueuesTrack(before, c, Successes(base, attempts));
  }

  lemma SameQueuesTrack(before: Contents, c: Contents, steps: seq<StoreStep>)
    requires Tracks(before, steps) && c.files == before.files
    requires forall name :: multiset(QueueOf(c.index, name)) == multiset(QueueOf(before.index, name))
    ensures Tracks(c, steps)
  {
    hide IsStepOf, QueueOf;
    forall name
      ensures OneEach(QueueOf(c.index, name))
      ensures forall e :: e in QueueOf(c.index, name) <==> e in QueueOf(before.index, name)
      ensures forall path :: Holds(QueueOf(c.index, name), path) <==> Holds(QueueOf(before.index, name), path)
    {
      Rearranged(QueueOf(before.index, name), QueueOf(c.index, name));
    }
  }

  lemma Rearranged(a: Queue, b: Queue)
    requires multiset(a) == multiset(b) && OneEach(a)
    ensures OneEach(b)
    ensures forall e :: e in b <==> e in a
    ensures forall path :: Holds(b, path) <==> Holds(a, path)
  {
    forall e ensures e in b <==> e in a {
      assert e in multiset(a) <==> e in multiset(b);
    }
    RearrangedOnce(a, b);
    forall path ensures Holds(b, path) <==> Holds(a, path) {
      HoldsIn(a, path);
      HoldsIn(b, path);
    }
  }

  lemma HoldsIn(a: Queue, path: string)
    ensures Holds(a, path) <==> exists e :: e in a && e.path == path
  {
    if Holds(a, path) {
      var i :| 0 <= i < |a| && a[i].path == path;
      assert a[i] in a;
    }
  }

  lemma RearrangedOnce(a: Queue, b: Queue)
    requires multiset(a) == multiset(b) && OneEach(a)
    ensures OneEach(b)
  {
    forall i, j | 0 <= i < j < |b| ensures b[i].path != b[j].path {
      TwoOf(b, i, j);
      CountOfUnrepeated(a, b[i]);
      assert b[i] in multiset(b) && b[j] in multiset(b);
      InBoth(a, b, i);
      InBoth(a, b, j);
    }
  }

  lemma InBoth(a: Queue, b: Queue, i: nat)
    requires multiset(a) == multiset(b) && i < |b|
    ensures b[i] in a
  {
    assert b[i] in multiset(b);
  }

  lemma TwoOf(b: Queue, i: nat, j: nat)
    requires i < j < |b|
    ensures b[i] == b[j] ==> multiset(b)[b[i]] >= 2
  {
    assert b == b[..j] + b[j..];
    assert b[..j][i] == b[i] && b[j..][0] == b[j];
    assert b[i] in multiset(b[..j]) && b[j] in multiset(b[j..]);
  }

  lemma ForeignQueuesStay(base: string, profiles: seq<DumpProfile>, c: Contents, attempts: seq<Attempt>)
    requires forall name :: QueueOf(c.index, name) != [] ==> exists p :: p in profiles && p.name == name
    requires forall i :: 0 <= i < |attempts| ==> attempts[i].profile in profiles
    ensures forall name :: QueueOf(AttemptAll(base, c, attempts).index, name) != [] ==>
        exists p :: p in profiles && p.name == name
  {
    hide PathFor, Evict, FilesAfterWrite, BudgetBytes;
    if attempts != [] {
      var n := |attempts| - 1;
      ForeignQueuesStay(base, profiles, c, attempts[..n]);
      var before, a := AttemptAll(base, c, attempts[..n]), attempts[n];
      forall name | QueueOf(AttemptOne(base, before, a).index, name) != []
        ensures exists p :: p in profiles && p.name == name
      {
        if name == a.profile.name {
          assert a.profile in profiles;
        } else {
          assert QueueOf(AttemptOne(base, before, a).index, name) == QueueOf(before.index, name);
        }
      }
    }
  }

  lemma FlatPieces(sessions: seq<seq<Attempt>>)
    requires sessions != []
    ensures var earlier, last := Flat(sessions[..|sessions| - 1]), sessions[|sessions| - 1];
            Flat(sessions)[..|earlier|] == earlier && Flat(sessions)[|earlier|..] == last
            && |earlier| <= |Flat(sessions)|
  {
  }

  /** What holds from boot to boot. */
  ghost predicate Carried(base: string, profiles: seq<DumpProfile>, sections: seq<Section>, c: Contents,
                          attempts: seq<Attempt>) {
    && Tracks(c, Successes(base, attempts))
    && OnlyOurs(base, profiles, sections, c.files, Successes(base, attempts))
    && forall name :: QueueOf(c.index, name) != [] ==> exists p :: p in profiles && p.name == name
  }

  lemma SessionCarries(base: string, profiles: seq<DumpProfile>, sections: seq<Section>, before: Contents,
                       attempts: seq<Attempt>, n: nat, c: Contents)
    requires Platform(base, profiles, sections) && n <= |attempts|
    requires AllAllowed(profiles, sections, attempts) && DistinctStores(attempts)
    requires Carried(base, profiles, sections, before, attempts[..n])
    requires Session(base, profiles, sections, before, attempts[n..], c)
    ensures Carried(base, profiles, sections, c, attempts)
    ensures c.files == AttemptAll(base, before, attempts[n..]).files
    ensures var ran := AttemptAll(base, before, attempts[n..]);
            forall p :: p in profiles ==>
              && multiset(QueueOf(c.index, p.name)) == multiset(QueueOf(ran.index, p.name))
              && (DistinctTimes(attempts, p.name) && SortedByTime(QueueOf(ran.index, p.name)) ==>
                    QueueOf(c.index, p.name) == QueueOf(ran.index, p.name))
  {
    hide Tracks, OnlyOurs, Walks, Rebuilt, Platform, DistinctStores, DistinctTimes, SortedByTime, QueueOf, Successes,
      AttemptAll,
      Allowed;
    var ran := AttemptAll(base, before, attempts[n..]);
    var tree :| Restarted(base, profiles, sections, tree, ran, c);
    AttemptsKeepTracks(base, before, profiles, sections, attempts, n);
    FilesStayOurs(base, before, profiles, sections, attempts, n);
    ServedProfiles(profiles, sections, attempts, n);
    ForeignQueuesStay(base, profiles, before, attempts[n..]);
    RestartKeepsTracks(base, profiles, sections, tree, ran, attempts, c);
    forall p | p in profiles
      ensures multiset(QueueOf(c.index, p.name)) == multiset(QueueOf(ran.index, p.name))
      ensures DistinctTimes(attempts, p.name) && SortedByTime(QueueOf(ran.index, p.name)) ==>
                QueueOf(c.index, p.name) == QueueOf(ran.index, p.name)
    {
      RebuiltAgreesIff(base, profiles, sections, tree, ran, attempts, c.index, p);
    }
  }

  lemma ServedProfiles(profiles: seq<DumpProfile>, sections: seq<Section>, attempts: seq<Attempt>, n: nat)
    requires AllAllowed(profiles, sections, attempts) && n <= |attempts|
    ensures forall i :: 0 <= i < |attempts[n..]| ==> attempts[n..][i].profile in profiles
  {
    forall i | 0 <= i < |attempts[n..]| ensures attempts[n..][i].profile in profiles {
      assert Allowed(profiles, sections, attempts[n + i]);
    }
  }

  /** Over any number of boots, whatever the order of the stores: after each restart the index is in
      step with the disk and with everything ever stored; no dump is lost, invented or indexed twice. */
  lemma {:induction false} LivesStayInStep(base: string, profiles: seq<DumpProfile>, sections: seq<Section>,
                                           start: Contents,
                                           sessions: seq<seq<Attempt>>, c: Contents)
    requires Platform(base, profiles, sections) && start.index == map[]
    requires OnlyOurs(base, profiles, sections, start.files, [])
    requires AllAllowed(profiles, sections, Flat(sessions)) && DistinctStores(Flat(sessions))
    requires Lives(base, profiles, sections, start, sessions, c)
    ensures Carried(base, profiles, sections, c, Flat(sessions))
    decreases |sessions|
  {
    hide Session, Carried, Platform, AllAllowed, DistinctStores, OnlyOurs;
    if sessions == [] {
      StartIsCarried(base, profiles, sections, start);
    } else {
      var earlier, last := sessions[..|sessions| - 1], sessions[|sessions| - 1];
      var before :| Lives(base, profiles, sections, start, earlier, before)
         && Session(base, profiles, sections, before, last, c);
      FlatPieces(sessions);
      PrefixesAllowed(profiles, sections, Flat(sessions), |Flat(earlier)|);
      LivesStayInStep(base, profiles, sections, start, earlier, before);
      SessionCarries(base, profiles, sections, before, Flat(sessions), |Flat(earlier)|, c);
    }
  }

  lemma StartIsCarried(base: string, profiles: seq<DumpProfile>, sections: seq<Section>, start: Contents)
    requires start.index == map[] && OnlyOurs(base, profiles, sections, start.files, [])
    ensures Carried(base, profiles, sections, start, [])
  {
  }

  /** The same files and the same queue for every profile. */
  ghost predicate SameQueues(profiles: seq<DumpProfile>, c: Contents, d: Contents) {
    c.files == d.files && forall p :: p in profiles ==> QueueOf(c.index, p.name) == QueueOf(d.index, p.name)
  }

  lemma {:induction false} SameStoreRuns(base: string, profiles: seq<DumpProfile>, c: Contents, d: Contents,
                                         attempts: seq<Attempt>)
    requires SameQueues(profiles, c, d) && forall i :: 0 <= i < |attempts| ==> attempts[i].profile in profiles
    ensures SameQueues(profiles, AttemptAll(base, c, attempts), AttemptAll(base, d, attempts))
    decreases |attempts|
  {
    hide Evict, FilesAfterWrite, BudgetBytes, PathFor;
    if attempts != [] {
      SameStoreRuns(base, profiles, c, d, attempts[..|attempts| - 1]);
      assert attempts[|attempts| - 1].profile in profiles;
    }
  }

  lemma {:induction false} AttemptsSplit(base: string, c: Contents, a: seq<Attempt>, b: seq<Attempt>)
    ensures AttemptAll(base, c, a + b) == AttemptAll(base, AttemptAll(base, c, a), b)
    decreases |b|
  {
    hide AttemptOne;
    if b == [] {
      assert a + b == a;
    } else {
      AttemptsSplit(base, c, a, b[..|b| - 1]);
      assert (a + b)[..|a + b| - 1] == a + b[..|b| - 1];
    }
  }

  lemma OrderedPrefix(attempts: seq<Attempt>, n: nat, name: string)
    requires n <= |attempts| && InTimeOrder(attempts, name)
    ensures InTimeOrder(attempts[..n], name) && DistinctTimes(attempts, name)
  {
    hide StoresFor;
  }

  /** With stores in time order per profile, restarts are invisible: after any number of boots every
      queue and the disk are those of one uninterrupted run of all the stores. */
  lemma {:induction false} RestartsAreInvisible(base: string, profiles: seq<DumpProfile>, sections: seq<Section>,
                                                start: Contents,
                                                sessions: seq<seq<Attempt>>, c: Contents)
    requires Platform(base, profiles, sections) && start.index == map[]
    requires OnlyOurs(base, profiles, sections, start.files, [])
    requires AllAllowed(profiles, sections, Flat(sessions)) && DistinctStores(Flat(sessions))
    requires forall p :: p in profiles ==> InTimeOrder(Flat(sessions), p.name)
    requires Lives(base, profiles, sections, start, sessions, c)
    ensures SameQueues(profiles, c, AttemptAll(base, start, Flat(sessions)))
    decreases |sessions|
  {
    hide Session, Carried, Platform, AllAllowed, DistinctStores, OnlyOurs, InTimeOrder, SortedByTime, AttemptAll,
      Successes;
    if sessions == [] {
      assert AttemptAll(base, start, []) == start by { NoAttempts(base, start); }
    } else {
      var earlier, last := sessions[..|sessions| - 1], sessions[|sessions| - 1];
      var before :| Lives(base, profiles, sections, start, earlier, before)
         && Session(base, profiles, sections, before, last, c);
      var all, n := Flat(sessions), |Flat(earlier)|;
      FlatPieces(sessions);
      PrefixesAllowed(profiles, sections, all, n);
      forall p | p in profiles ensures InTimeOrder(Flat(earlier), p.name) {
        OrderedPrefix(all, n, p.name);
      }
      RestartsAreInvisible(base, profiles, sections, start, earlier, before);
      LivesStayInStep(base, profiles, sections, start, earlier, before);
      SessionCarries(base, profiles, sections, before, all, n, c);
      ServedProfiles(profiles, sections, all, n);
      SameStoreRuns(base, profiles, before, AttemptAll(base, start, Flat(earlier)), last);
      AttemptsSplit(base, start, Flat(earlier), last);
      assert all == Flat(earlier) + last;
      assert all[0..] == all && all[..0] == [];
      NothingTracked(base, start);
      forall p | p in profiles ensures QueueOf(c.index, p.name) == QueueOf(AttemptAll(base, start, all).index, p.name) {
        OrderedPrefix(all, n, p.name);
        AttemptsKeepSorted(base, start, profiles, sections, all, 0, p.name);
      }
    }
  }

  lemma NoAttempts(base: string, c: Contents)
    ensures AttemptAll(base, c, []) == c
  {
  }

  lemma NothingTracked(base: string, c: Contents)
    requires c.index == map[]
    ensures Tracks(c, Successes(base, [])) && forall name :: SortedByTime(QueueOf(c.index, name))
  {
  }

  // ---------------------------------------------------------------- a restarted store as a start

  lemma {:induction false} OfConcat(a: seq<StoreStep>, b: seq<StoreStep>, name: string)
    ensures Of(a + b, name) == Of(a, name) + Of(b, name)
    decreases |b|
  {
    hide Of;
    if b == [] {
      OfOthers([], name);
      assert a + b == a && Of(a, name) + [] == Of(a, name);
    } else {
      var n := |b| - 1;
      OfConcat(a, b[..n], name);
      assert a + b == (a + b[..n]) + [b[n]] && b == b[..n] + [b[n]];
      OfGrows(a + b[..n], b[n], name);
      OfGrows(b[..n], b[n], name);
      Regroup(Of(a, name), Of(b[..n], name), b[n]);
    }
  }

  lemma Regroup(a: seq<StoreStep>, b: seq<StoreStep>, x: StoreStep)
    ensures a + (b + [x]) == (a + b) + [x]
  {
  }

  lemma {:induction false} OfItself(h: seq<StoreStep>, name: string, other: string)
    requires forall i :: 0 <= i < |h| ==> h[i].profile.name == name
    ensures Of(h, other) == if other == name then h else []
  {
    if h != [] {
      OfItself(h[..|h| - 1], name, other);
    }
  }

  /** The stores behind some queued entries. */
  lemma {:induction false} StoresBehind(c: Contents, steps: seq<StoreStep>, name: string, queue: Queue)
    returns (h: seq<StoreStep>)
    requires Tracks(c, steps) && forall e :: e in queue ==> e in QueueOf(c.index, name)
    ensures Entries(h) == queue && AllOnDisk(h, c.files)
    ensures forall i :: 0 <= i < |h| ==> h[i] in steps && h[i].profile.name == name
  {
    hide Tracks, QueueOf;
    if queue == [] {
      h := [];
    } else {
      var n := |queue| - 1;
      h := StoresBehind(c, steps, name, queue[..n]);
      var m := StepOfEntry(c, steps, name, queue[n]);
      SizeOfStep(c, steps, m);
      h := h + [steps[m]];
    }
  }

  lemma SizeOfStep(c: Contents, steps: seq<StoreStep>, m: nat)
    requires Tracks(c, steps) && m < |steps| && steps[m].path in c.files
    ensures c.files[steps[m].path] == steps[m].bytes
  {
    hide IsStepOf, OneEach;
  }

  /** The queues of the first n profiles as one history. */
  lemma {:induction false} PastOf(c: Contents, steps: seq<StoreStep>, profiles: seq<DumpProfile>, n: nat)
    returns (past: seq<StoreStep>)
    requires Tracks(c, steps) && WellFormed(steps) && n <= |profiles|
    requires forall i, j :: 0 <= i < j < |profiles| ==> profiles[i].name != profiles[j].name
    ensures AllOnDisk(past, c.files) && DistinctPaths(past)
    ensures forall i :: 0 <= i < |past| ==>
        past[i] in steps && exists m :: 0 <= m < n && past[i].profile.name == profiles[m].name
    ensures forall m :: 0 <= m < n ==> Entries(Of(past, profiles[m].name)) == QueueOf(c.index, profiles[m].name)
    decreases n
  {
    hide Tracks, WellFormed, QueueOf, Of, Entries;
    if n == 0 {
      past := [];
    } else {
      var before := PastOf(c, steps, profiles, n - 1);
      var name := profiles[n - 1].name;
      var h := StoresBehind(c, steps, name, QueueOf(c.index, name));
      past := before + h;
      HistoriesApart(c, steps, name, before, h);
      forall m | 0 <= m < n ensures Entries(Of(past, profiles[m].name)) == QueueOf(c.index, profiles[m].name) {
        OfConcat(before, h, profiles[m].name);
        OfItself(h, name, profiles[m].name);
        OfOthers(before, name);
        assert Of(before, profiles[m].name) + [] == Of(before, profiles[m].name);
        assert [] + h == h;
      }
      forall i | 0 <= i < |past|
        ensures past[i] in steps && exists m :: 0 <= m < n && past[i].profile.name == profiles[m].name
      {
        if i < |before| {
          assert past[i] == before[i];
        } else {
          assert past[i] == h[i - |before|];
        }
      }
    }
  }

  lemma {:induction false} OfOthers(h: seq<StoreStep>, name: string)
    requires forall i :: 0 <= i < |h| ==> h[i].profile.name != name
    ensures Of(h, name) == []
  {
    if h != [] {
      OfOthers(h[..|h| - 1], name);
    }
  }

  lemma HistoriesApart(c: Contents, steps: seq<StoreStep>, name: string, before: seq<StoreStep>, h: seq<StoreStep>)
    requires Tracks(c, steps) && WellFormed(steps) && DistinctPaths(before) && AllOnDisk(before, c.files)
    requires AllOnDisk(h, c.files)
    requires Entries(h) == QueueOf(c.index, name)
    requires forall i :: 0 <= i < |before| ==> before[i] in steps && before[i].profile.name != name
    requires forall i :: 0 <= i < |h| ==> h[i] in steps && h[i].profile.name == name
    ensures DistinctPaths(before + h) && AllOnDisk(before + h, c.files)
  {
    hide FilesMatch, IsStepOf;
    var all := before + h;
    forall i, j | 0 <= i < j < |all| ensures all[i].path != all[j].path {
      if |before| <= i {
        assert Entries(h)[i - |before|].path == all[i].path && Entries(h)[j - |before|].path == all[j].path;
      } else if |before| <= j {
        DifferentNames(steps, all[i], all[j]);
      }
    }
  }

  lemma DifferentNames(steps: seq<StoreStep>, a: StoreStep, b: StoreStep)
    requires WellFormed(steps) && a in steps && b in steps && a.profile.name != b.profile.name
    ensures a.path != b.path
  {
    var i :| 0 <= i < |steps| && steps[i] == a;
    var j :| 0 <= j < |steps| && steps[j] == b;
  }

  /** After any number of boots there is a history that describes the restarted store, so that
      RunKeepsLongestSuffix and what follows from it apply to the stores to come. */
  lemma RestartedIsDescribed(base: string, profiles: seq<DumpProfile>, sections: seq<Section>, c: Contents,
                             attempts: seq<Attempt>)
    returns (past: seq<StoreStep>)
    requires Platform(base, profiles, sections) && AllAllowed(profiles, sections, attempts) && DistinctStores(attempts)
    requires Carried(base, profiles, sections, c, attempts)
    ensures Describes(c, past) && WellFormed(past) && ProfilesCover(profiles, past)
    ensures forall i :: 0 <= i < |past| ==> past[i] in Successes(base, attempts)
  {
    hide Tracks, OnlyOurs, Successes, PrefixFree, AllAllowed, DistinctStores, Entries, Of, QueueOf;
    var steps := Successes(base, attempts);
    SuccessesWellFormed(base, profiles, sections, attempts);
    past := PastOf(c, steps, profiles, |profiles|);
    forall name ensures QueueOf(c.index, name) == Entries(Of(past, name)) {
      if p :| p in profiles && p.name == name {
        var m := IndexOf(profiles, p);
      } else {
        OfOthers(past, name);
        NoEntries();
      }
    }
    forall i | 0 <= i < |past| ensures past[i].profile in profiles && EndsWith(past[i].path, ".dat") {
      var j :| 0 <= j < |steps| && steps[j] == past[i];
      var k := SuccessOf(base, attempts, j);
      ServedProfile(profiles, sections, attempts, k);
    }
  }

  lemma IndexOf(profiles: seq<DumpProfile>, p: DumpProfile) returns (m: nat)
    requires p in profiles
    ensures m < |profiles| && profiles[m] == p
  {
    m :| 0 <= m < |profiles| && profiles[m] == p;
  }

  lemma NoEntries()
    ensures Entries([]) == []
  {
  }

  lemma ServedProfile(profiles: seq<DumpProfile>, sections: seq<Section>, attempts: seq<Attempt>, k: nat)
    requires AllAllowed(profiles, sections, attempts) && k < |attempts|
    ensures attempts[k].profile in profiles
  {
  }

  // ---------------------------------------------------------------- ambiguous names

  /** The scan takes the dumps of one profile and component for those of another exactly where the
      name prefix of the first extends that of the second, whatever their times. */
  lemma TakenForIff(p: DumpProfile, c: string, t: int, q: DumpProfile, d: string)
    ensures IsDumpName(FileName(p.section, c, p.storage.filePrefix, t), PrefixOf(q, d))
       <==> StartsWith(PrefixOf(p, c), PrefixOf(q, d))
  {
    hide NamePrefix, IntToString, StartsWith;
    NameIsDump(p.section, c, p.storage.filePrefix, t);
    PrintedTime(t);
    PrefixEnds(q.section, d, q.storage.filePrefix);
    var name := FileName(p.section, c, p.storage.filePrefix, t);
    assert name == PrefixOf(p, c) + (IntToString(t) + ".dat");
    FrontOrBeyond(PrefixOf(p, c), IntToString(t) + ".dat", PrefixOf(q, d));
  }

  lemma PrefixEnds(section: string, component: string, filePrefix: string)
    ensures var prefix := NamePrefix(section, component, filePrefix); prefix != "" && prefix[|prefix| - 1] == '_'
  {
  }

  lemma FrontOrBeyond(front: string, tail: string, prefix: string)
    requires '_' !in tail && prefix != "" && prefix[|prefix| - 1] == '_'
    ensures StartsWith(front + tail, prefix) <==> StartsWith(front, prefix)
  {
    if |prefix| <= |front| {
      assert (front + tail)[..|prefix|] == front[..|prefix|];
    } else if |prefix| <= |front + tail| {
      var last := |prefix| - 1 - |front|;
      assert (front + tail)[..|prefix|][|prefix| - 1] == tail[last] && tail[last] in tail;
    }
  }

  /** Every restart after a run of stores on an empty disk finds exactly the queued dumps. */
  ghost predicate RestartsAgree(base: string, profiles: seq<DumpProfile>, sections: seq<Section>) {
    forall attempts, tree, index, p :: AfterRun(base, profiles, sections, attempts, tree, index, p) ==>
      multiset(QueueOf(index, p.name)) == multiset(QueueOf(AttemptAll(base, Empty(), attempts).index, p.name))
  }

  ghost predicate AfterRun(base: string, profiles: seq<DumpProfile>, sections: seq<Section>, attempts: seq<Attempt>,
                           tree: seq<BootDir>, index: map<string, Queue>, p: DumpProfile) {
    && AllAllowed(profiles, sections, attempts) && DistinctStores(attempts)
    && Walks(base, tree, AttemptAll(base, Empty(), attempts).files)
    && p in profiles && Rebuilt(index, base, p, sections, tree)
  }

  function Empty(): Contents {
    Contents(map[], map[])
  }

  /** Profiles have different names, and no name holds a slash. */
  ghost predicate PlainNames(profiles: seq<DumpProfile>, sections: seq<Section>) {
    && (forall i, j :: 0 <= i < j < |profiles| ==> profiles[i].name != profiles[j].name)
    && (forall p, c :: Serves(profiles, sections, p, c) ==> '/' !in PrefixOf(p, c))
  }

  // One dump of no bytes, and the restart after it.

  function OneDump(p: DumpProfile, c: string): Attempt {
    Attempt(p, c, "D", 0, Written(0))
  }

  function TreeOf(base: string, a: Attempt): seq<BootDir> {
    if base == "" then [] else [BootDir(a.dir, [NameFor(a)])]
  }

  lemma OneDumpStored(base: string, profiles: seq<DumpProfile>, sections: seq<Section>, p: DumpProfile, c: string)
    requires PlainNames(profiles, sections) && Serves(profiles, sections, p, c)
    ensures var a := OneDump(p, c);
            && AllAllowed(profiles, sections, [a]) && DistinctStores([a])
            && AttemptAll(base, Empty(), [a]) == Contents(map[p.name := [DumpEntry(PathFor(base, a), 0)]],
                                                          map[PathFor(base, a) := 0])
  {
    hide PathFor, TempPath, BudgetBytes, IntToString, NamePrefix;
    var a := OneDump(p, c);
    PrintedTime(0);
    assert '/' !in PrefixOf(p, c);
    assert NameFor(a) == PrefixOf(p, c) + IntToString(0) + ".dat";
    assert [a][..0] == [];
    TempIsNoDumpFile(base, a);
    StoredAlone(p, PathFor(base, a));
  }

  lemma TempIsNoDumpFile(base: string, a: Attempt)
    ensures TempPath(PathFor(base, a)) != PathFor(base, a)
  {
  }

  lemma StoredAlone(p: DumpProfile, path: string)
    requires TempPath(path) != path
    ensures Stored(Empty(), p, path, 0, Written(0), {}) == Contents(map[p.name := [DumpEntry(path, 0)]], map[path := 0])
  {
    var queue := [DumpEntry(path, 0)];
    var files: Files := map[path := 0];
    assert queue[..0] == [] && UsedBytes([], files) == 0;
    assert UsedBytes(queue, files) == 0;
    assert [] + queue == queue;
    assert (map[] - {TempPath(path)})[path := 0] == files;
  }

  lemma OneDumpWalked(base: string, a: Attempt)
    requires IsName(a.dir) && IsName(NameFor(a))
    ensures Walks(base, TreeOf(base, a), map[PathFor(base, a) := 0])
    ensures base != "" ==> AllFiles(TreeOf(base, a)) == [FileAt(a.dir, NameFor(a))]
  {
    hide IsName, FileIn, NameFor;
    var tree := TreeOf(base, a);
    if base != "" {
      assert tree[..0] == [];
      assert AllFiles(tree) == [FileAt(a.dir, NameFor(a))];
      forall dir, name | IsName(dir) && IsName(name) && FileIn(base, dir, name) == PathFor(base, a)
        ensures FileAt(dir, name) in AllFiles(tree)
      {
        FileDecides(base, dir, name, a.dir, NameFor(a));
      }
    }
  }

  /** The queue that a scan of one file leaves: that dump, once for every component it is taken for. */
  lemma {:induction false} ScanOfOne(base: string, f: FileAt, q: DumpProfile, components: seq<string>)
    ensures forall e :: e in Found(base, [f], q, components) ==> e == EntryAt(base, f)
    ensures |Found(base, [f], q, components)| == Taken(f.name, q, components)
    decreases |components|
  {
    hide EntryAt, IsDumpName, NamePrefix, Matching;
    if components != [] {
      var n := |components| - 1;
      ScanOfOne(base, f, q, components[..n]);
      MatchOfOne(base, f, PrefixOf(q, components[n]));
    }
  }

  lemma MatchOfOne(base: string, f: FileAt, prefix: string)
    ensures Matching(base, [f], prefix) == if IsDumpName(f.name, prefix) then [EntryAt(base, f)] else []
  {
    hide EntryAt, IsDumpName;
    assert [f][..0] == [];
    assert Matching(base, [], prefix) == [];
  }

  function Taken(name: string, q: DumpProfile, components: seq<string>): nat {
    if components == [] then 0
    else
      var n := |components| - 1;
      Taken(name, q, components[..n]) + if IsDumpName(name, PrefixOf(q, components[n])) then 1 else 0
  }

  lemma {:induction false} TakenAt(name: string, q: DumpProfile, components: seq<string>, i: nat)
    requires i < |components| && IsDumpName(name, PrefixOf(q, components[i]))
    ensures Taken(name, q, components) >= 1
    ensures forall j :: i < j < |components| && IsDumpName(name, PrefixOf(q, components[j])) ==>
        Taken(name, q, components) >= 2
    decreases |components|
  {
    hide IsDumpName, PrefixOf;
    var n := |components| - 1;
    if i < n {
      TakenAt(name, q, components[..n], i);
      forall j | i < j < n && IsDumpName(name, PrefixOf(q, components[j]))
        ensures Taken(name, q, components[..n]) >= 2
      {
        assert components[..n][j] == components[j];
      }
    }
  }

  /** After a restart behind one dump of p, the rebuilt queue of q holds it as often as it is taken. */
  lemma AfterOneDump(base: string, profiles: seq<DumpProfile>, sections: seq<Section>, p: DumpProfile, c: string,
                     q: DumpProfile)
    requires PlainNames(profiles, sections) && Serves(profiles, sections, p, c) && q in profiles
    requires RestartsAgree(base, profiles, sections)
    ensures base != "" && Taken(NameFor(OneDump(p, c)), q, ComponentsOf(sections, q.section)) == if p == q then 1 else 0
  {
    hide PathFor, NameFor, Walks, AttemptAll, AllAllowed, DistinctStores, Found, ComponentsOf, Taken, AllFiles,
      SortedByTime,
      EntryAt, RestartsAgree;
    var a := OneDump(p, c);
    OneDumpStored(base, profiles, sections, p, c);
    DumpHasName(profiles, sections, a);
    OneDumpWalked(base, a);
    var components := ComponentsOf(sections, q.section);
    var ran := AttemptAll(base, Empty(), [a]);
    if base == "" {
      EmptyBaseDisagrees(profiles, sections, p, c);
    } else {
      var found := Found(base, [FileAt(a.dir, NameFor(a))], q, components);
      ScanOfOne(base, FileAt(a.dir, NameFor(a)), q, components);
      SameEntriesSorted(found, EntryAt(base, FileAt(a.dir, NameFor(a))));
      RebuiltAs(base, q, sections, TreeOf(base, a), found);
      AgreesAt(base, profiles, sections, [a], TreeOf(base, a), map[q.name := found], q);
      SameLength(found, QueueOf(ran.index, q.name));
      if p.name == q.name {
        SameName(profiles, p, q);
      }
    }
  }

  lemma EmptyBaseDisagrees(profiles: seq<DumpProfile>, sections: seq<Section>, p: DumpProfile, c: string)
    requires PlainNames(profiles, sections) && Serves(profiles, sections, p, c)
    ensures !RestartsAgree("", profiles, sections)
  {
    hide PathFor, NameFor, Walks, AttemptAll, AllAllowed, DistinctStores, Found, ComponentsOf, AllFiles, SortedByTime;
    var a := OneDump(p, c);
    OneDumpStored("", profiles, sections, p, c);
    DumpHasName(profiles, sections, a);
    OneDumpWalked("", a);
    NothingFound("", p, ComponentsOf(sections, p.section));
    RebuiltAs("", p, sections, TreeOf("", a), []);
    assert AfterRun("", profiles, sections, [a], TreeOf("", a), map[p.name := []], p);
    var running := QueueOf(AttemptAll("", Empty(), [a]).index, p.name);
    assert |multiset(QueueOf(map[p.name := []], p.name))| == 0 && |multiset(running)| == 1;
  }

  lemma SameEntriesSorted(queue: Queue, e: DumpEntry)
    requires forall x :: x in queue ==> x == e
    ensures SortedByTime(queue)
  {
    forall i, j | 0 <= i < j < |queue| ensures queue[i].ts <= queue[j].ts {
      assert queue[i] in queue && queue[j] in queue;
    }
  }

  lemma DumpHasName(profiles: seq<DumpProfile>, sections: seq<Section>, a: Attempt)
    requires AllAllowed(profiles, sections, [a])
    ensures IsName(a.dir) && IsName(NameFor(a))
  {
    assert Allowed(profiles, sections, [a][0]);
  }

  lemma RebuiltAs(base: string, q: DumpProfile, sections: seq<Section>, tree: seq<BootDir>, found: Queue)
    requires found == Found(base, AllFiles(tree), q, ComponentsOf(sections, q.section))
    requires SortedByTime(found) || found == []
    ensures Rebuilt(map[q.name := found], base, q, sections, tree)
  {
  }

  lemma AgreesAt(base: string, profiles: seq<DumpProfile>, sections: seq<Section>, attempts: seq<Attempt>,
                 tree: seq<BootDir>, index: map<string, Queue>, p: DumpProfile)
    requires RestartsAgree(base, profiles, sections) && AfterRun(base, profiles, sections, attempts, tree, index, p)
    ensures multiset(QueueOf(index, p.name)) == multiset(QueueOf(AttemptAll(base, Empty(), attempts).index, p.name))
  {
    hide AfterRun, QueueOf, AttemptAll;
  }

  /** Restarts find exactly what was stored if and only if the platform tells its dumps apart: the
      base path is not empty, no component is listed twice, and no name prefix extends another. */
  lemma RestartsAgreeIff(base: string, profiles: seq<DumpProfile>, sections: seq<Section>)
    requires PlainNames(profiles, sections) && exists p, c :: Serves(profiles, sections, p, c)
    ensures RestartsAgree(base, profiles, sections) <==> Platform(base, profiles, sections)
  {
    hide AttemptAll, AllAllowed, DistinctStores, Walks, Rebuilt, QueueOf, Taken, NameFor, PrefixOf, StartsWith;
    if Platform(base, profiles, sections) {
      forall attempts, tree, index, p | AfterRun(base, profiles, sections, attempts, tree, index, p)
        ensures multiset(QueueOf(index, p.name)) == multiset(QueueOf(AttemptAll(base, Empty(), attempts).index, p.name))
      {
        assert attempts[0..] == attempts && attempts[..0] == [];
        NothingTracked(base, Empty());
        RestartAgreesIff(base, profiles, sections, tree, Empty(), attempts, 0, index, p);
      }
    }
    if RestartsAgree(base, profiles, sections) {
      var p, c :| Serves(profiles, sections, p, c);
      AfterOneDump(base, profiles, sections, p, c, p);
      forall q | q in profiles ensures Unrepeated(ComponentsOf(sections, q.section)) {
        AgreeingUnrepeated(base, profiles, sections, q);
      }
      forall p, c, q, d | Serves(profiles, sections, p, c) && Serves(profiles, sections, q, d) && (p != q || c != d)
        ensures !StartsWith(PrefixOf(p, c), PrefixOf(q, d))
      {
        AgreeingPrefixes(base, profiles, sections, p, c, q, d);
      }
    }
  }

  lemma AgreeingUnrepeated(base: string, profiles: seq<DumpProfile>, sections: seq<Section>, q: DumpProfile)
    requires PlainNames(profiles, sections) && RestartsAgree(base, profiles, sections) && q in profiles
    ensures Unrepeated(ComponentsOf(sections, q.section))
  {
    hide RestartsAgree, Taken, PlainNames, ComponentsOf, IsDumpName;
    var components := ComponentsOf(sections, q.section);
    forall i, j | 0 <= i < j < |components| ensures components[i] != components[j] {
      assert Serves(profiles, sections, q, components[i]);
      AfterOneDump(base, profiles, sections, q, components[i], q);
      NameIsDump(q.section, components[i], q.storage.filePrefix, 0);
      TakenAt(NameFor(OneDump(q, components[i])), q, components, i);
    }
  }

  lemma AgreeingPrefixes(base: string, profiles: seq<DumpProfile>, sections: seq<Section>,
                         p: DumpProfile, c: string, q: DumpProfile, d: string)
    requires PlainNames(profiles, sections) && RestartsAgree(base, profiles, sections)
    requires Serves(profiles, sections, p, c) && Serves(profiles, sections, q, d) && (p != q || c != d)
    ensures !StartsWith(PrefixOf(p, c), PrefixOf(q, d))
  {
    hide RestartsAgree, Taken, PlainNames, ComponentsOf, IsDumpName, StartsWith, FileName, NamePrefix;
    var components, name := ComponentsOf(sections, q.section), NameFor(OneDump(p, c));
    AfterOneDump(base, profiles, sections, p, c, q);
    TakenForIff(p, c, 0, q, d);
    NameIsDump(p.section, c, p.storage.filePrefix, 0);
    if IsDumpName(name, PrefixOf(q, d)) {
      var j :| 0 <= j < |components| && components[j] == d;
      TakenAt(name, q, components, j);
      if p == q {
        var i :| 0 <= i < |components| && components[i] == c;
        TakenAt(name, q, components, if i < j then i else j);
      }
      assert false;
    }
  }
}

/** The handler and its store together: what any run of the collection state machine leaves in the
    index and on disk, and what a restart makes of it. */
module DumpEndToEnd {
  import opened Text
  import opened DumpPaths
  import opened DumpStore
  import opened DumpHistory
  import opened DumpRestart
  import DH = DumpHandler
  import Sf = DumpSafety

  /** The store call that a step leads to, if any. */
  function AttemptIn(cfg: DH.Config, s: DH.State, e: DH.Event): seq<Attempt> {
    if e.Ticked? && e.key in s.inFlight && s.inFlight[e.key].phase.PollingStatus? && e.input.poll.Done?
    then
      var ctx := s.inFlight[e.key];
      if DH.ReachesStore(e.input.poll.completion)
      then [Attempt(ctx.profile.dump, ctx.component, s.dir, ctx.ts, e.input.poll.completion.write)]
      else []
    else []
  }

  /** All store calls of a run, in order. */
  function AttemptsIn(cfg: DH.Config, s: DH.State, events: seq<DH.Event>): seq<Attempt> {
    if events == [] then []
    else
      var n := |events| - 1;
      AttemptsIn(cfg, s, events[..n]) + AttemptIn(cfg, DH.Run(cfg, s, events[..n]), events[n])
  }

  // ---------------------------------------------------------------- the same but for temporary files

  ghost predicate Agree(f: Files, g: Files) {
    forall path :: !Sf.IsTemp(path) ==> (path in f <==> path in g) && (path in f ==> f[path] == g[path])
  }

  ghost predicate NoTemps(queue: Queue) {
    forall i :: 0 <= i < |queue| ==> !Sf.IsTemp(queue[i].path)
  }

  ghost predicate Similar(c: Contents, d: Contents) {
    c.index == d.index && Agree(c.files, d.files) && forall name :: name in c.index ==> NoTemps(c.index[name])
  }

  lemma {:induction false} UsedAgrees(queue: Queue, f: Files, g: Files)
    requires Agree(f, g) && NoTemps(queue)
    ensures UsedBytes(queue, f) == UsedBytes(queue, g)
  {
    if queue != [] {
      UsedAgrees(queue[..|queue| - 1], f, g);
    }
  }

  lemma {:induction false} EvictAgrees(queue: Queue, f: Files, g: Files, budget: nat)
    requires Agree(f, g) && NoTemps(queue)
    ensures Evict(queue, f, budget, {}).0 == Evict(queue, g, budget, {}).0
    ensures Agree(Evict(queue, f, budget, {}).1, Evict(queue, g, budget, {}).1)
    ensures NoTemps(Evict(queue, f, budget, {}).0)
    decreases |queue|
  {
    UsedAgrees(queue, f, g);
    if queue != [] && UsedBytes(queue, f) > budget {
      EvictAgrees(queue[1..], f - {queue[0].path}, g - {queue[0].path}, budget);
    }
  }

  lemma TempIsTemp(path: string)
    ensures Sf.IsTemp(TempPath(path))
  {
    assert TempPath(path)[|path|..] == ".tmp";
  }

  lemma StoredAgrees(c: Contents, d: Contents, p: DumpProfile, path: string, ts: int, outcome: WriteOutcome)
    requires Similar(c, d) && !Sf.IsTemp(path)
    ensures Similar(Stored(c, p, path, ts, outcome, {}), Stored(d, p, path, ts, outcome, {}))
  {
    hide Evict, Sf.IsTemp, TempPath, BudgetBytes;
    TempIsTemp(path);
    if outcome.Written? {
      var queue := QueueOf(c.index, p.name) + [DumpEntry(path, ts)];
      EvictAgrees(queue, FilesAfterWrite(c.files, path, outcome, {}), FilesAfterWrite(d.files, path, outcome, {}),
                  BudgetBytes(p.storage.budgetMB));
    }
  }

  // ---------------------------------------------------------------- what a step does to the store

  lemma CleanupStore(cfg: DH.Config, s: DH.State, key: string, d: Contents)
    requires Sf.TempsNamed(cfg, s) && Similar(s.store, d)
    ensures Similar(DH.Cleanup(s, key).store, d)
  {
    hide Sf.IsTemp, TempPath, DH.FileOf, NoTemps;
    if key in s.inFlight {
      Sf.OwnTempIsTemp(cfg, s.inFlight[key]);
    }
  }

  lemma FailStore(cfg: DH.Config, s: DH.State, key: string, ctx: DH.Context, stage: string, detail: string, at: int,
                  d: Contents)
    requires Sf.TempsNamed(cfg, s) && Similar(s.store, d)
    ensures var now := DH.Cleanup(DH.FailContext(s, ctx, stage, detail, ctx.attempt, at), key);
            Similar(now.store, d)
  {
    hide DH.Cleanup, Similar, TempPath, DH.FileOf;
    CleanupStore(cfg, DH.FailContext(s, ctx, stage, detail, ctx.attempt, at), key, d);
  }

  lemma CallDiagStore(cfg: DH.Config, s: DH.State, key: string, reply: DH.DiagReply, at: int, d: Contents)
    requires Sf.TempsNamed(cfg, s) && Similar(s.store, d)
    ensures Similar(DH.CallDiag(s, key, reply, at).store, d)
  {
    hide DH.Cleanup, DH.FailContext, Similar, TempPath, DH.Retries, DH.Backoff, FileName, FileIn;
    if key in s.inFlight && !reply.Accepted? {
      var ctx := s.inFlight[key].(attempt := s.inFlight[key].attempt + 1);
      Sf.UpdateTemps(cfg, s, key, ctx);
      FailStore(cfg, DH.WithContext(s, key, ctx), key, ctx, "GetDiagnostics", reply.what, at, d);
    }
  }

  /** The store after a completion, behind the same completion of a store without the
      temporary files. */
  lemma CompleteStore(cfg: DH.Config, s: DH.State, ctx: DH.Context, c: DH.Completion, d: Contents)
    requires Similar(s.store, d)
    ensures var now := DH.Complete(cfg, s, ctx, c).0;
            && now.inFlight == s.inFlight
            && Similar(now.store,
                 if DH.ReachesStore(c)
                 then Stored(d, ctx.profile.dump, DH.FileOf(cfg, s.dir, ctx), ctx.ts, c.write, {})
                 else d)
  {
    hide Stored, Similar, DH.FileOf, DH.PathOf, DH.RelativeTo, DH.MakeKey;
    Sf.PathIsNoTemp(cfg, s.dir, ctx);
    StoredAgrees(s.store, d, ctx.profile.dump, DH.FileOf(cfg, s.dir, ctx), ctx.ts, c.write);
  }

  lemma PollStore(cfg: DH.Config, s: DH.State, key: string, reply: DH.PollReply, at: int, d: Contents)
    requires Sf.TempsNamed(cfg, s) && Similar(s.store, d)
    ensures var now := DH.Poll(cfg, s, key, reply, at);
            Similar(now.store,
                 if key in s.inFlight && reply.Done? && DH.ReachesStore(reply.completion)
                 then var ctx := s.inFlight[key];
                      Stored(d, ctx.profile.dump, DH.FileOf(cfg, s.dir, ctx), ctx.ts, reply.completion.write, {})
                 else d)
  {
    hide DH.Cleanup, DH.FailContext, Similar, Stored, TempPath, DH.Complete, DH.TimedOut, FileName, FileIn,
      DH.ReachesStore;
    if key in s.inFlight {
      var ctx := s.inFlight[key];
      match reply
      case Done(c) =>
        var closing := ctx.(fd := -1);
        var s0 := DH.WithContext(DH.Close(s, ctx.fd), key, closing);
        Sf.CloseTemps(cfg, s, key);
        Sf.SameFilePaths(cfg, ctx, closing);
        CompleteStore(cfg, s0, closing, c, d);
        Sf.CompleteFiles(cfg, s0, closing, c);
        var s1 := DH.Complete(cfg, s0, closing, c).0;
        var d1 := if DH.ReachesStore(c)
                  then Stored(d, ctx.profile.dump, DH.FileOf(cfg, s.dir, closing), ctx.ts, c.write, {})
                  else d;
        Sf.NamedAgain(cfg, s0, s1);
        FailStore(cfg, s1, key, ctx, "AsyncStatus", c.what, at, d1);
        CleanupStore(cfg, s1, key, d1);
      case InProgress =>
        FailStore(cfg, s, key, ctx, "AsyncStatus", DH.TimedOut(ctx.profile.retrieval.timeoutSecs), at, d);
      case OtherStatus(text) =>
        FailStore(cfg, s, key, ctx, "AsyncStatus", text, at, d);
      case Throws(what) =>
        FailStore(cfg, s, key, ctx, "AsyncStatus", what, at, d);
    }
  }

  lemma ReportStore(cfg: DH.Config, s: DH.State, p: DH.Profile, r: DH.ReportInput, d: Contents)
    requires Sf.TempsNamed(cfg, s) && Similar(s.store, d)
    ensures var now := DH.Report(cfg, s, p, r); Similar(now.store, d)
  {
    hide DH.CallDiag, Similar, TempPath, DH.MayStart, DH.MakeKey, FileName, FileIn;
    if r.matched.Matched? {
      var s1 := DH.Opened(cfg, s, p, r.matched.component, r.matched.code, r);
      OpenedStore(cfg, s, p, r.matched.component, r.matched.code, r, d);
      if DH.MakeKey(p.dump.name, r.matched.component) !in s.inFlight {
        Sf.OpenedTemps(cfg, s, p, r.matched.component, r.matched.code, r);
        CallDiagStore(cfg, s1, DH.MakeKey(p.dump.name, r.matched.component), r.diag, r.failedAt, d);
      }
    }
  }

  lemma OpenedStore(cfg: DH.Config, s: DH.State, p: DH.Profile, component: string, code: nat, r: DH.ReportInput,
                    d: Contents)
    requires Sf.TempsNamed(cfg, s) && Similar(s.store, d)
    ensures var now := DH.Opened(cfg, s, p, component, code, r); Similar(now.store, d)
  {
    hide DH.MakeKey, FileName, FileIn, TempPath, Sf.IsTemp, NoTemps;
    var ctx := DH.NewContext(cfg, s.dir, p, component, code, r.startAt, r.fd);
    assert ctx.tempPath == TempPath(DH.FileOf(cfg, s.dir, ctx));
    Sf.PathIsNoTemp(cfg, s.dir, ctx);
  }

  lemma {:induction false} ReportAllStore(cfg: DH.Config, s: DH.State, inputs: seq<DH.ReportInput>, n: nat, d: Contents)
    requires Sf.TempsNamed(cfg, s) && Similar(s.store, d) && n <= |inputs| && n <= |cfg.profiles|
    ensures var now := DH.ReportAll(cfg, s, inputs, n); Similar(now.store, d)
  {
    hide DH.Report, Similar, Sf.TempsNamed;
    if n > 0 {
      ReportAllStore(cfg, s, inputs, n - 1, d);
      Sf.ReportAllTemps(cfg, s, inputs, n - 1);
      ReportStore(cfg, DH.ReportAll(cfg, s, inputs, n - 1), cfg.profiles[n - 1], inputs[n - 1], d);
    }
  }

  lemma TickStore(cfg: DH.Config, s: DH.State, key: string, input: DH.TickInput, d: Contents)
    requires Sf.TempsNamed(cfg, s) && Similar(s.store, d)
    ensures var now := DH.Tick(cfg, s, key, input);
            Similar(now.store, AttemptAll(cfg.base, d, AttemptIn(cfg, s, DH.Ticked(key, input))))
  {
    hide DH.CallDiag, DH.Poll, Similar, Stored, TempPath, FileName, FileIn, DH.ReachesStore;
    if key in s.inFlight {
      var ctx := s.inFlight[key];
      Sf.UpdateTemps(cfg, s, key, ctx.(wait := ctx.wait - 1));
      Sf.UpdateTemps(cfg, s, key, ctx.(elapsed := ctx.elapsed + 1));
      Sf.SameFilePaths(cfg, ctx, ctx.(elapsed := ctx.elapsed + 1));
      CallDiagStore(cfg, DH.WithContext(s, key, ctx.(wait := ctx.wait - 1)), key, input.diag, input.at, d);
      PollStore(cfg, DH.WithContext(s, key, ctx.(elapsed := ctx.elapsed + 1)), key, input.poll, input.at, d);
      if input.poll.Done? {
        OneAttempt(cfg.base, d, Attempt(ctx.profile.dump, ctx.component, s.dir, ctx.ts, input.poll.completion.write));
      }
    }
  }

  lemma OneAttempt(base: string, d: Contents, a: Attempt)
    ensures AttemptAll(base, d, [a]) == AttemptOne(base, d, a)
  {
    assert [a][..0] == [];
  }

  lemma StepStore(cfg: DH.Config, s: DH.State, e: DH.Event, d: Contents)
    requires Sf.TempsNamed(cfg, s) && Similar(s.store, d)
    ensures Similar(DH.Step(cfg, s, e).store, AttemptAll(cfg.base, d, AttemptIn(cfg, s, e)))
  {
    hide DH.ReportAll, DH.Tick, Similar, Sf.TempsNamed, DH.Severe;
    match e
    case Reported(severity, inputs) =>
      if |inputs| == |cfg.profiles| {
        ReportAllStore(cfg, s, inputs, |inputs|, d);
      }
    case Ticked(key, input) =>
      TickStore(cfg, s, key, input, d);
    case Rotated(dir) =>
  }

  // ---------------------------------------------------------------- whole runs

  ghost predicate NoTempsQueued(c: Contents) {
    forall name :: name in c.index ==> NoTemps(c.index[name])
  }

  /** After any run of the handler, window expiries included, the index, and every file but the
      temporary ones, are those of the store calls alone. */
  lemma {:induction false} StoreIsItsAttempts(cfg: DH.Config, s: DH.State, events: seq<DH.Event>)
    requires s.inFlight == map[] && NoTempsQueued(s.store)
    ensures Similar(DH.Run(cfg, s, events).store, AttemptAll(cfg.base, s.store, AttemptsIn(cfg, s, events)))
  {
    hide DH.Step, AttemptOne, AttemptIn;
    if events != [] {
      var n := |events| - 1;
      StoreIsItsAttempts(cfg, s, events[..n]);
      var before := DH.Run(cfg, s, events[..n]);
      Sf.RunTempsNamed(cfg, s, events[..n]);
      StepStore(cfg, before, events[n], AttemptAll(cfg.base, s.store, AttemptsIn(cfg, s, events[..n])));
      AttemptsSplit(cfg.base, s.store, AttemptsIn(cfg, s, events[..n]), AttemptIn(cfg, before, events[n]));
    }
  }

  lemma SimilarInStep(c: Contents, d: Contents, steps: seq<StoreStep>, n: nat)
    requires Similar(c, d) && WellFormed(steps)
    ensures InStep(d, steps, n) ==> InStep(c, steps, n)
    ensures Tracks(d, steps) ==> Tracks(c, steps)
  {
    hide LongestSuffix, Holds, Of, NoTemps, BudgetBytes, IsStepOf, OneEach, StoredSince, Entries;
    forall i | 0 <= i < |steps| ensures !Sf.IsTemp(steps[i].path) {
      DatIsNoTemp(steps[i].path);
    }
  }

  lemma DatIsNoTemp(path: string)
    requires EndsWith(path, ".dat")
    ensures !Sf.IsTemp(path)
  {
    assert ".dat"[3] == 't' && ".tmp"[3] == 'p';
  }

  lemma DescribedHasNoTemps(c: Contents, past: seq<StoreStep>)
    requires Describes(c, past) && WellFormed(past)
    ensures NoTempsQueued(c)
  {
    hide Of, AllOnDisk, EndsWith, Sf.IsTemp;
    forall name, i | name in c.index && 0 <= i < |c.index[name]| ensures !Sf.IsTemp(c.index[name][i].path) {
      assert c.index[name] == QueueOf(c.index, name) == Entries(Of(past, name));
      var k := MembersOf(past, name, i);
      DatIsNoTemp(past[k].path);
    }
  }

  /** From whatever a restart left, over budget or not: after any run of the handler the queue of each
      profile it stored to is the longest suffix of its dumps that fits the budget, those it found
      included, and exactly the queued dumps are on disk. */
  lemma HandlerKeepsLongestSuffix(cfg: DH.Config, sections: seq<Section>, s: DH.State, earlier: seq<Attempt>,
                                  events: seq<DH.Event>) returns (past: seq<StoreStep>)
    requires s.inFlight == map[] && Platform(cfg.base, Dumps(cfg), sections)
    requires Carried(cfg.base, Dumps(cfg), sections, s.store, earlier)
    requires var all := earlier + AttemptsIn(cfg, s, events);
             AllAllowed(Dumps(cfg), sections, all) && DistinctStores(all)
    ensures Describes(s.store, past)
    ensures var stored := Successes(cfg.base, AttemptsIn(cfg, s, events));
            InStep(DH.Run(cfg, s, events).store, past + stored, |past|)
  {
    hide DH.Run, AttemptsIn, InStep, WellFormed, Platform, AllAllowed, DistinctStores, Similar, Carried, Describes,
      Successes,
      Dumps, NoTempsQueued;
    var attempts := AttemptsIn(cfg, s, events);
    var all := earlier + attempts;
    assert all[..|earlier|] == earlier;
    PrefixesAllowed(Dumps(cfg), sections, all, |earlier|);
    past := RestartedIsDescribed(cfg.base, Dumps(cfg), sections, s.store, earlier);
    DescribedHasNoTemps(s.store, past);
    StoreIsItsAttempts(cfg, s, events);
    SuccessesWellFormed(cfg.base, Dumps(cfg), sections, all);
    SuccessesConcat(cfg.base, earlier, attempts);
    PastThenNew(Successes(cfg.base, earlier), past, Successes(cfg.base, attempts));
    AttemptsKeepInStep(cfg.base, s.store, past, attempts);
    SimilarInStep(DH.Run(cfg, s, events).store, AttemptAll(cfg.base, s.store, attempts),
                  past + Successes(cfg.base, attempts), |past|);
  }

  lemma {:induction false} SuccessesConcat(base: string, a: seq<Attempt>, b: seq<Attempt>)
    ensures Successes(base, a + b) == Successes(base, a) + Successes(base, b)
    decreases |b|
  {
    hide Successes, StepFor;
    if b == [] {
      NoSuccesses(base, Successes(base, a));
      assert a + b == a;
    } else {
      var n := |b| - 1;
      SuccessesConcat(base, a, b[..n]);
      assert a + b == (a + b[..n]) + [b[n]] && b == b[..n] + [b[n]];
      OneMoreSuccess(base, a + b[..n], b[n]);
      OneMoreSuccess(base, b[..n], b[n]);
      if b[n].outcome.Written? {
        Regroup(Successes(base, a), Successes(base, b[..n]), StepFor(base, b[n]));
      }
    }
  }

  lemma NoSuccesses(base: string, steps: seq<StoreStep>)
    ensures steps + Successes(base, []) == steps
  {
  }

  lemma OneMoreSuccess(base: string, attempts: seq<Attempt>, a: Attempt)
    ensures Successes(base, attempts + [a])
         == if a.outcome.Written? then Successes(base, attempts) + [StepFor(base, a)] else Successes(base, attempts)
  {
    assert (attempts + [a])[..|attempts|] == attempts;
  }

  lemma PastThenNew(before: seq<StoreStep>, past: seq<StoreStep>, stored: seq<StoreStep>)
    requires WellFormed(before + stored) && WellFormed(past) && forall i :: 0 <= i < |past| ==> past[i] in before
    ensures WellFormed(past + stored)
  {
    hide EndsWith;
    var all, both := past + stored, before + stored;
    forall i, j | 0 <= i < j < |all|
      ensures all[i].path != all[j].path
      ensures all[i].profile.name == all[j].profile.name ==> all[i].profile == all[j].profile
    {
      if |past| <= j {
        assert all[j] == both[|before| + j - |past|];
        if i < |past| {
          var k :| 0 <= k < |before| && before[k] == past[i];
          assert both[k] == all[i];
        } else {
          assert all[i] == both[|before| + i - |past|];
        }
      }
    }
    forall i | |past| <= i < |all| ensures EndsWith(all[i].path, ".dat") {
      assert all[i] == both[|before| + i - |past|];
    }
  }

  function Dumps(cfg: DH.Config): seq<DumpProfile> {
    seq(|cfg.profiles|, i requires 0 <= i < |cfg.profiles| => cfg.profiles[i].dump)
  }

  lemma SimilarOurs(base: string, profiles: seq<DumpProfile>, sections: seq<Section>, c: Contents, d: Contents,
                    steps: seq<StoreStep>)
    requires Similar(c, d) && OnlyOurs(base, profiles, sections, d.files, steps)
    ensures OnlyOurs(base, profiles, sections, c.files, steps)
  {
    hide FileIn, Claimed, NoTemps, IsName;
    forall dir, name | IsName(dir) && IsName(name) && FileIn(base, dir, name) in c.files
       && Claimed(profiles, sections, name)
      ensures FileIn(base, dir, name) in PathsOf(steps)
    {
      ClaimedIsNoTemp(base, profiles, sections, dir, name);
    }
  }

  lemma ClaimedIsNoTemp(base: string, profiles: seq<DumpProfile>, sections: seq<Section>, dir: string, name: string)
    requires Claimed(profiles, sections, name)
    ensures !Sf.IsTemp(FileIn(base, dir, name))
  {
    hide FileIn;
    var p, c :| Serves(profiles, sections, p, c) && IsDumpName(name, PrefixOf(p, c));
    FileEndsLikeName(base, dir, name);
  }

  /** And a restart at that point, collections in flight or not, finds exactly the queued dumps, and
      a profile's in the same order exactly where that was the order of time. */
  lemma RestartAfterRun(cfg: DH.Config, sections: seq<Section>, tree: seq<BootDir>, s: DH.State, earlier: seq<Attempt>,
                        events: seq<DH.Event>, index: map<string, Queue>, p: DumpProfile)
    requires s.inFlight == map[] && Platform(cfg.base, Dumps(cfg), sections)
    requires Carried(cfg.base, Dumps(cfg), sections, s.store, earlier)
    requires var all := earlier + AttemptsIn(cfg, s, events);
             AllAllowed(Dumps(cfg), sections, all) && DistinctStores(all)
    requires Walks(cfg.base, tree, DH.Run(cfg, s, events).store.files)
    requires p in Dumps(cfg) && Rebuilt(index, cfg.base, p, sections, tree)
    ensures var running := QueueOf(DH.Run(cfg, s, events).store.index, p.name);
            && multiset(QueueOf(index, p.name)) == multiset(running)
            && (DistinctTimes(earlier + AttemptsIn(cfg, s, events), p.name) ==>
                  (QueueOf(index, p.name) == running <==> SortedByTime(running)))
  {
    hide DH.Run, AttemptsIn, InStep, Tracks, Platform, AllAllowed, DistinctStores, DistinctTimes, Similar, Walks,
      Rebuilt, OnlyOurs,
      SortedByTime, QueueOf, Dumps, Describes, NoTempsQueued, Successes, WellFormed;
    var attempts := AttemptsIn(cfg, s, events);
    var all, n := earlier + attempts, |earlier|;
    var now, alone := DH.Run(cfg, s, events).store, AttemptAll(cfg.base, s.store, attempts);
    assert all[..n] == earlier && all[n..] == attempts;
    PrefixesAllowed(Dumps(cfg), sections, all, n);
    var past := RestartedIsDescribed(cfg.base, Dumps(cfg), sections, s.store, earlier);
    DescribedHasNoTemps(s.store, past);
    StoreIsItsAttempts(cfg, s, events);
    AttemptsKeepTracks(cfg.base, s.store, Dumps(cfg), sections, all, n);
    FilesStayOurs(cfg.base, s.store, Dumps(cfg), sections, all, n);
    SuccessesWellFormed(cfg.base, Dumps(cfg), sections, all);
    SimilarInStep(now, alone, Successes(cfg.base, all), 0);
    SimilarOurs(cfg.base, Dumps(cfg), sections, now, alone, Successes(cfg.base, all));
    RebuiltAgreesIff(cfg.base, Dumps(cfg), sections, tree, now, all, index, p);
  }
}

/** What becomes of descriptors and temporary files over a run of the handler between two restarts. */
module DumpSafety {
  import opened Text
  import opened DumpPaths
  import opened DumpStore
  import opened DumpHandler

  // ---------------------------------------------------------------- descriptors

  /** The open descriptors are exactly those of the contexts, one each. */
  ghost predicate DescriptorsMatch(s: State) {
    && s.strayCloses == 0
    && (forall k :: k in s.inFlight && s.inFlight[k].fd >= 0 ==> s.inFlight[k].fd in s.open)
    && (forall fd :: fd in s.open ==> exists k :: k in s.inFlight && s.inFlight[k].fd == fd && fd >= 0)
    && (forall j, k :: j in s.inFlight && k in s.inFlight && s.inFlight[j].fd == s.inFlight[k].fd >= 0 ==> j == k)
  }

  ghost predicate AllOpen(s: State) {
    forall k :: k in s.inFlight ==> s.inFlight[k].fd >= 0
  }

  ghost predicate Descriptors(s: State) {
    DescriptorsMatch(s) && AllOpen(s)
  }

  /** open(2) never hands out a descriptor that is in use. */
  ghost predicate KernelOk(cfg: Config, s: State, e: Event) {
    e.Reported? && |e.inputs| == |cfg.profiles| ==>
      forall i :: 0 <= i < |e.inputs| ==> e.inputs[i].fd !in ReportAll(cfg, s, e.inputs, i).open
  }

  /** A close of a descriptor that is not open is counted, and does nothing else. */
  lemma StrayClosesCount(s: State, fd: int)
    ensures Close(s, fd).open == s.open - {fd}
    ensures Close(s, fd).strayCloses == s.strayCloses <==> fd in s.open
  {
  }

  lemma CloseContextMatches(s: State, key: string)
    requires DescriptorsMatch(s) && key in s.inFlight && s.inFlight[key].fd >= 0
    ensures var ctx := s.inFlight[key];
            DescriptorsMatch(WithContext(Close(s, ctx.fd), key, ctx.(fd := -1)))
  {
    var ctx := s.inFlight[key];
    var now := WithContext(Close(s, ctx.fd), key, ctx.(fd := -1));
    forall fd | fd in now.open ensures exists k :: k in now.inFlight && now.inFlight[k].fd == fd && fd >= 0 {
      var k :| k in s.inFlight && s.inFlight[k].fd == fd && fd >= 0;
      assert k != key && now.inFlight[k].fd == fd;
    }
  }

  lemma DropClosed(s: State, key: string)
    requires DescriptorsMatch(s) && key in s.inFlight && s.inFlight[key].fd < 0
    ensures DescriptorsMatch(s.(inFlight := s.inFlight - {key}))
  {
    var now := s.(inFlight := s.inFlight - {key});
    forall fd | fd in now.open ensures exists k :: k in now.inFlight && now.inFlight[k].fd == fd && fd >= 0 {
      var k :| k in s.inFlight && s.inFlight[k].fd == fd && fd >= 0;
      assert k != key && k in now.inFlight;
    }
  }

  /** The part of a state the descriptors live in. */
  ghost predicate SameHandles(s: State, t: State) {
    s.inFlight == t.inFlight && s.open == t.open && s.strayCloses == t.strayCloses
  }

  lemma SameHandlesMatch(s: State, t: State)
    requires SameHandles(s, t) && DescriptorsMatch(s)
    ensures DescriptorsMatch(t)
  {
  }

  /** Cleaning up closes the descriptor if it is still open, and only then. */
  lemma CleanupMatches(s: State, key: string)
    requires DescriptorsMatch(s) && forall k :: k in s.inFlight && k != key ==> s.inFlight[k].fd >= 0
    ensures Descriptors(Cleanup(s, key))
  {
    hide DescriptorsMatch;
    if key in s.inFlight {
      var ctx := s.inFlight[key];
      if ctx.fd >= 0 {
        CloseContextMatches(s, key);
        var closed := WithContext(Close(s, ctx.fd), key, ctx.(fd := -1));
        DropClosed(closed, key);
        DropUpdated(s.inFlight, key, ctx.(fd := -1));
        SameHandlesMatch(closed.(inFlight := closed.inFlight - {key}), Cleanup(s, key));
      } else {
        DropClosed(s, key);
        SameHandlesMatch(s.(inFlight := s.inFlight - {key}), Cleanup(s, key));
      }
    }
  }

  lemma UpdateMatches(s: State, key: string, ctx: Context)
    requires Descriptors(s) && key in s.inFlight && ctx.fd == s.inFlight[key].fd
    ensures Descriptors(WithContext(s, key, ctx))
  {
    hide Descriptors;
    SameFdsMatch(s, WithContext(s, key, ctx));
  }

  lemma SameFdsMatch(s: State, t: State)
    requires Descriptors(s) && t.open == s.open && t.strayCloses == s.strayCloses && t.inFlight.Keys == s.inFlight.Keys
    requires forall k :: k in s.inFlight ==> t.inFlight[k].fd == s.inFlight[k].fd
    ensures Descriptors(t)
  {
    forall fd | fd in t.open ensures exists k :: k in t.inFlight && t.inFlight[k].fd == fd && fd >= 0 {
      var k :| k in s.inFlight && s.inFlight[k].fd == fd && fd >= 0;
      assert t.inFlight[k].fd == fd;
    }
  }

  lemma FailSameHandles(s: State, ctx: Context, stage: string, detail: string, attempts: nat, at: int)
    ensures SameHandles(s, FailContext(s, ctx, stage, detail, attempts, at))
  {
  }

  lemma FailThenCleanup(s: State, key: string, ctx: Context, stage: string, detail: string, at: int)
    requires DescriptorsMatch(s) && forall k :: k in s.inFlight && k != key ==> s.inFlight[k].fd >= 0
    ensures Descriptors(Cleanup(FailContext(s, ctx, stage, detail, ctx.attempt, at), key))
  {
    hide DescriptorsMatch, Cleanup, FailContext;
    FailSameHandles(s, ctx, stage, detail, ctx.attempt, at);
    SameHandlesMatch(s, FailContext(s, ctx, stage, detail, ctx.attempt, at));
    CleanupMatches(FailContext(s, ctx, stage, detail, ctx.attempt, at), key);
  }

  lemma CallDiagMatches(s: State, key: string, reply: DiagReply, at: int)
    requires Descriptors(s)
    ensures Descriptors(CallDiag(s, key, reply, at))
  {
    hide Descriptors, Cleanup, FailContext, Retries, Backoff;
    if key in s.inFlight {
      var ctx := s.inFlight[key].(attempt := s.inFlight[key].attempt + 1);
      UpdateMatches(s, key, ctx);
      UpdateMatches(s, key, ctx.(phase := PollingStatus, elapsed := 0));
      UpdateMatches(s, key, ctx.(phase := RetryWaiting, wait := Backoff(ctx.profile.retrieval, ctx.attempt)));
      if !reply.Accepted? {
        DescriptorsParts(WithContext(s, key, ctx));
        FailThenCleanup(WithContext(s, key, ctx), key, ctx, "GetDiagnostics", reply.what, at);
      }
    }
  }

  lemma DescriptorsParts(s: State)
    requires Descriptors(s)
    ensures DescriptorsMatch(s) && forall k :: k in s.inFlight ==> s.inFlight[k].fd >= 0
  {
  }

  lemma CompleteSameHandles(cfg: Config, s: State, ctx: Context, c: Completion)
    ensures SameHandles(s, Complete(cfg, s, ctx, c).0)
  {
    hide Stored, FileOf, PathOf, RelativeTo, MakeKey;
  }

  /** Polling closes the descriptor once, whatever happens during completion. */
  lemma PollMatches(cfg: Config, s: State, key: string, reply: PollReply, at: int)
    requires Descriptors(s)
    ensures Descriptors(Poll(cfg, s, key, reply, at))
  {
    hide DescriptorsMatch, Cleanup, FailContext, Complete, Close, TimedOut;
    if key in s.inFlight {
      var ctx := s.inFlight[key];
      match reply
      case Done(c) =>
        var closing := ctx.(fd := -1);
        var s0 := WithContext(Close(s, ctx.fd), key, closing);
        CloseContextMatches(s, key);
        CompleteSameHandles(cfg, s0, closing, c);
        CloseSameContexts(s, ctx.fd);
        var s1 := Complete(cfg, s0, closing, c).0;
        SameHandlesMatch(s0, s1);
        FailThenCleanup(s1, key, ctx, "AsyncStatus", c.what, at);
        CleanupMatches(s1, key);
      case InProgress =>
        FailThenCleanup(s, key, ctx, "AsyncStatus", TimedOut(ctx.profile.retrieval.timeoutSecs), at);
      case OtherStatus(text) =>
        FailThenCleanup(s, key, ctx, "AsyncStatus", text, at);
      case Throws(what) =>
        FailThenCleanup(s, key, ctx, "AsyncStatus", what, at);
    }
  }

  lemma CloseSameContexts(s: State, fd: int)
    ensures Close(s, fd).inFlight == s.inFlight
  {
  }

  lemma OpenedMatches(cfg: Config, s: State, p: Profile, component: string, code: nat, r: ReportInput)
    requires Descriptors(s) && MakeKey(p.dump.name, component) !in s.inFlight && r.fd >= 0 && r.fd !in s.open
    ensures Descriptors(Opened(cfg, s, p, component, code, r))
  {
    hide MakeKey, FileName;
    var key := MakeKey(p.dump.name, component);
    var now := Opened(cfg, s, p, component, code, r);
    assert now.inFlight[key].fd == r.fd;
    forall fd | fd in now.open ensures exists k :: k in now.inFlight && now.inFlight[k].fd == fd && fd >= 0 {
      if fd != r.fd {
        var k :| k in s.inFlight && s.inFlight[k].fd == fd && fd >= 0;
        assert now.inFlight[k].fd == fd;
      }
    }
  }

  lemma ReportMatches(cfg: Config, s: State, p: Profile, r: ReportInput)
    requires Descriptors(s) && r.fd !in s.open
    ensures Descriptors(Report(cfg, s, p, r))
  {
    hide DescriptorsMatch, CallDiag, Opened, MayStart, MakeKey, AllOpen;
    if r.matched.Matched? {
      var component := r.matched.component;
      var refused := Fail(s, p.dump.name, component, r.matched.code, "DiskSpaceCheck", PRE_CHECK, 0, r.failedAt);
      RefusedMatches(s, p, component, r);
      if MakeKey(p.dump.name, component) !in s.inFlight && r.fd >= 0 {
        OpenedMatches(cfg, s, p, component, r.matched.code, r);
        CallDiagMatches(Opened(cfg, s, p, component, r.matched.code, r), MakeKey(p.dump.name, component), r.diag,
                        r.failedAt);
      }
    }
  }

  lemma RefusedMatches(s: State, p: Profile, component: string, r: ReportInput)
    requires Descriptors(s) && r.matched.Matched?
    ensures Descriptors(Fail(s, p.dump.name, component, r.matched.code, "DiskSpaceCheck", PRE_CHECK, 0, r.failedAt))
  {
  }

  lemma {:induction false} ReportAllMatches(cfg: Config, s: State, inputs: seq<ReportInput>, n: nat)
    requires Descriptors(s) && n <= |inputs| && n <= |cfg.profiles|
    requires forall i :: 0 <= i < n ==> inputs[i].fd !in ReportAll(cfg, s, inputs, i).open
    ensures Descriptors(ReportAll(cfg, s, inputs, n))
  {
    hide Report, Descriptors;
    if n > 0 {
      ReportAllMatches(cfg, s, inputs, n - 1);
      ReportMatches(cfg, ReportAll(cfg, s, inputs, n - 1), cfg.profiles[n - 1], inputs[n - 1]);
    }
  }

  lemma RotatedMatches(s: State, dir: string)
    requires Descriptors(s)
    ensures Descriptors(s.(dir := dir))
  {
  }

  lemma StepMatches(cfg: Config, s: State, e: Event)
    requires Descriptors(s) && KernelOk(cfg, s, e)
    ensures Descriptors(Step(cfg, s, e))
  {
    hide ReportAll, Descriptors, Severe, CallDiag, Poll;
    match e
    case Reported(severity, inputs) =>
      if |inputs| == |cfg.profiles| {
        ReportAllMatches(cfg, s, inputs, |inputs|);
      }
    case Ticked(key, input) =>
      if key in s.inFlight {
        var ctx := s.inFlight[key];
        UpdateMatches(s, key, ctx.(wait := ctx.wait - 1));
        UpdateMatches(s, key, ctx.(elapsed := ctx.elapsed + 1));
        CallDiagMatches(WithContext(s, key, ctx.(wait := ctx.wait - 1)), key, input.diag, input.at);
        PollMatches(cfg, WithContext(s, key, ctx.(elapsed := ctx.elapsed + 1)), key, input.poll, input.at);
      }
    case Rotated(dir) =>
      RotatedMatches(s, dir);
  }

  ghost predicate KernelOkRun(cfg: Config, s: State, events: seq<Event>) {
    forall i :: 0 <= i < |events| ==> KernelOk(cfg, Run(cfg, s, events[..i]), events[i])
  }

  lemma KernelOkPrefix(cfg: Config, s: State, events: seq<Event>)
    requires KernelOkRun(cfg, s, events) && events != []
    ensures KernelOkRun(cfg, s, events[..|events| - 1])
    ensures KernelOk(cfg, Run(cfg, s, events[..|events| - 1]), events[|events| - 1])
  {
    hide Run, KernelOk;
    var n := |events| - 1;
    forall i | 0 <= i < n ensures KernelOk(cfg, Run(cfg, s, events[..n][..i]), events[..n][i]) {
      assert events[..n][..i] == events[..i];
    }
  }

  /** After every step of every run the open descriptors are exactly those of the collections in
      flight, no two share one, and none was ever closed twice. */
  lemma {:induction false} NoDescriptorLeaks(cfg: Config, s: State, events: seq<Event>)
    requires Descriptors(s) && KernelOkRun(cfg, s, events)
    ensures Descriptors(Run(cfg, s, events))
  {
    hide Step, Descriptors, KernelOk, KernelOkRun;
    if events != [] {
      KernelOkPrefix(cfg, s, events);
      NoDescriptorLeaks(cfg, s, events[..|events| - 1]);
      StepMatches(cfg, Run(cfg, s, events[..|events| - 1]), events[|events| - 1]);
    }
  }

  // ---------------------------------------------------------------- temporary files

  predicate IsTemp(path: string) {
    EndsWith(path, ".tmp")
  }

  /** Every temporary file on disk belongs to a collection in flight. */
  ghost predicate TempsOwned(s: State) {
    forall path :: path in s.store.files && IsTemp(path) ==> Owned(s, path)
  }

  ghost predicate Owned(s: State, path: string) {
    exists k :: k in s.inFlight && s.inFlight[k].tempPath == path
  }

  /** The temporary file of a collection is named for the directory it was opened in. */
  ghost predicate OwnTemp(cfg: Config, ctx: Context) {
    exists dir :: ctx.tempPath == TempPath(FileOf(cfg, dir, ctx))
  }

  ghost predicate TempsNamed(cfg: Config, s: State) {
    forall k :: k in s.inFlight ==> OwnTemp(cfg, s.inFlight[k])
  }

  /** A serialisation that fails in a directory other than the one the collection was opened in
      (and in which no other collection happens to use that very file). */
  ghost predicate Leaks(cfg: Config, s: State, e: Event) {
    && e.Ticked? && e.key in s.inFlight && s.inFlight[e.key].phase.PollingStatus? && e.input.poll.Done?
    && LeakyCompletion(cfg, s, e.key, e.input.poll.completion)
  }

  ghost predicate LeakyCompletion(cfg: Config, s: State, key: string, c: Completion)
    requires key in s.inFlight
  {
    var ctx := s.inFlight[key];
    var temp := TempPath(FileOf(cfg, s.dir, ctx));
    && ReachesStore(c) && c.write.SerializeFails?
    && temp != ctx.tempPath && !Owned(s.(inFlight := s.inFlight - {key}), temp)
  }

  lemma PathIsNoTemp(cfg: Config, dir: string, ctx: Context)
    ensures !IsTemp(FileOf(cfg, dir, ctx)) && IsTemp(TempPath(FileOf(cfg, dir, ctx)))
  {
    hide FileIn;
    var name := FileName(ctx.profile.dump.section, ctx.component, ctx.profile.dump.storage.filePrefix, ctx.ts);
    assert name[|name| - 4..] == ".dat";
    FileEndsLikeName(cfg.base, dir, name);
    var path := FileOf(cfg, dir, ctx);
    assert TempPath(path)[|path|..] == ".tmp";
  }

  lemma OwnTempIsTemp(cfg: Config, ctx: Context)
    requires OwnTemp(cfg, ctx)
    ensures IsTemp(ctx.tempPath)
  {
    hide IsTemp, FileOf, TempPath;
    var dir :| ctx.tempPath == TempPath(FileOf(cfg, dir, ctx));
    PathIsNoTemp(cfg, dir, ctx);
  }

  /** Cleaning up takes the collection and its temporary file away together. */
  lemma CleanupTemps(cfg: Config, s: State, key: string)
    requires TempsNamed(cfg, s)
    ensures TempsNamed(cfg, Cleanup(s, key)) && Cleanup(s, key).dir == s.dir
    ensures TempsOwned(s) ==> TempsOwned(Cleanup(s, key))
    ensures key in s.inFlight ==> s.inFlight[key].tempPath !in Cleanup(s, key).store.files
  {
    hide IsTemp, OwnTemp;
    if key in s.inFlight && TempsOwned(s) {
      var now := Cleanup(s, key);
      forall path | path in now.store.files && IsTemp(path) ensures Owned(now, path) {
        var k :| k in s.inFlight && s.inFlight[k].tempPath == path;
        assert k != key && now.inFlight[k] == s.inFlight[k];
      }
    }
  }

  /** The contexts as far as temporary files go. */
  ghost predicate SameTemps(cfg: Config, s: State, t: State) {
    && s.inFlight.Keys == t.inFlight.Keys
    && (forall k :: k in s.inFlight ==> t.inFlight[k].tempPath == s.inFlight[k].tempPath)
    && (forall k :: k in s.inFlight && OwnTemp(cfg, s.inFlight[k]) ==> OwnTemp(cfg, t.inFlight[k]))
  }

  lemma SameTempsOwned(cfg: Config, s: State, t: State)
    requires SameTemps(cfg, s, t) && TempsNamed(cfg, s)
    ensures TempsNamed(cfg, t)
    ensures forall path :: Owned(s, path) <==> Owned(t, path)
    ensures TempsOwned(s) && (forall path :: path in t.store.files && IsTemp(path) ==> path in s.store.files) ==>
        TempsOwned(t)
  {
    hide IsTemp, OwnTemp;
    forall path ensures Owned(s, path) <==> Owned(t, path) {
      if Owned(s, path) {
        var k :| k in s.inFlight && s.inFlight[k].tempPath == path;
        assert k in t.inFlight && t.inFlight[k].tempPath == path;
      }
      if Owned(t, path) {
        var k :| k in t.inFlight && t.inFlight[k].tempPath == path;
        assert k in s.inFlight && s.inFlight[k].tempPath == path;
      }
    }
  }

  /** The same collection with other counters. */
  ghost predicate SameFile(a: Context, b: Context) {
    a.tempPath == b.tempPath && a.profile == b.profile && a.component == b.component && a.ts == b.ts
  }

  lemma SameFilePaths(cfg: Config, a: Context, b: Context)
    requires SameFile(a, b)
    ensures OwnTemp(cfg, a) <==> OwnTemp(cfg, b)
    ensures forall dir :: FileOf(cfg, dir, a) == FileOf(cfg, dir, b)
  {
    hide TempPath, FileName, FileIn;
    if OwnTemp(cfg, a) {
      var dir :| a.tempPath == TempPath(FileOf(cfg, dir, a));
      assert b.tempPath == TempPath(FileOf(cfg, dir, b));
    }
    if OwnTemp(cfg, b) {
      var dir :| b.tempPath == TempPath(FileOf(cfg, dir, b));
      assert a.tempPath == TempPath(FileOf(cfg, dir, a));
    }
  }

  lemma UpdateTemps(cfg: Config, s: State, key: string, ctx: Context)
    requires TempsNamed(cfg, s) && key in s.inFlight && SameFile(s.inFlight[key], ctx)
    ensures TempsNamed(cfg, WithContext(s, key, ctx)) && (TempsOwned(s) ==> TempsOwned(WithContext(s, key, ctx)))
    ensures forall path :: Owned(s, path) <==> Owned(WithContext(s, key, ctx), path)
  {
    hide IsTemp, OwnTemp, Owned, TempsOwned, TempsNamed;
    SameFilePaths(cfg, s.inFlight[key], ctx);
    SameTempsOwned(cfg, s, WithContext(s, key, ctx));
    NamedAt(cfg, s);
  }

  lemma NamedAt(cfg: Config, s: State)
    requires TempsNamed(cfg, s)
    ensures forall k :: k in s.inFlight ==> OwnTemp(cfg, s.inFlight[k])
  {
  }

  lemma FailTemps(cfg: Config, s: State, key: string, ctx: Context, stage: string, detail: string, at: int)
    requires TempsNamed(cfg, s)
    ensures var now := Cleanup(FailContext(s, ctx, stage, detail, ctx.attempt, at), key);
            TempsNamed(cfg, now) && now.dir == s.dir && (TempsOwned(s) ==> TempsOwned(now))
  {
    hide IsTemp, OwnTemp, Cleanup;
    CleanupTemps(cfg, FailContext(s, ctx, stage, detail, ctx.attempt, at), key);
  }

  lemma CallDiagTemps(cfg: Config, s: State, key: string, reply: DiagReply, at: int)
    requires TempsNamed(cfg, s)
    ensures var now := CallDiag(s, key, reply, at);
            TempsNamed(cfg, now) && now.dir == s.dir && (TempsOwned(s) ==> TempsOwned(now))
  {
    hide TempsNamed, TempsOwned, Owned, Cleanup, FailContext, Retries, Backoff;
    if key in s.inFlight {
      var ctx := s.inFlight[key].(attempt := s.inFlight[key].attempt + 1);
      UpdateTemps(cfg, s, key, ctx);
      UpdateTemps(cfg, s, key, ctx.(phase := PollingStatus, elapsed := 0));
      UpdateTemps(cfg, s, key, ctx.(phase := RetryWaiting, wait := Backoff(ctx.profile.retrieval, ctx.attempt)));
      if !reply.Accepted? {
        FailTemps(cfg, WithContext(s, key, ctx), key, ctx, "GetDiagnostics", reply.what, at);
      }
    }
  }

  /** The files that storing a dump can add: the dump, and its temporary file where the
      serialisation fails. */
  lemma StoredFiles(c: Contents, p: DumpProfile, path: string, ts: int, outcome: WriteOutcome)
    ensures var now := Stored(c, p, path, ts, outcome, {});
            && now.files.Keys <= c.files.Keys + {path} + (if outcome.SerializeFails? then {TempPath(path)} else {})
            && (outcome.SerializeFails? ==> TempPath(path) in now.files)
  {
    hide Evict, TempPath, BudgetBytes;
    if outcome.Written? {
      EvictOnlyRemoves(QueueOf(c.index, p.name) + [DumpEntry(path, ts)], FilesAfterWrite(c.files, path, outcome, {}),
                       BudgetBytes(p.storage.budgetMB), {});
    }
  }

  lemma CompleteFiles(cfg: Config, s: State, ctx: Context, c: Completion)
    ensures var now := Complete(cfg, s, ctx, c).0; var path := FileOf(cfg, s.dir, ctx);
            && now.inFlight == s.inFlight && now.dir == s.dir
            && now.store.files.Keys
            <= s.store.files.Keys + {path}
                 + (if ReachesStore(c) && c.write.SerializeFails? then {TempPath(path)} else {})
            && (ReachesStore(c) && c.write.SerializeFails? ==> TempPath(path) in now.store.files)
  {
    hide Stored, FileOf, TempPath, RelativeTo, MakeKey;
    StoredFiles(s.store, ctx.profile.dump, FileOf(cfg, s.dir, ctx), ctx.ts, c.write);
  }

  /** What remains of a completed collection: nothing, or a leaked file. */
  lemma DoneTemps(cfg: Config, s: State, t: State, key: string, c: Completion)
    requires key in s.inFlight && TempsOwned(s)
    requires t.inFlight == s.inFlight - {key}
    requires var ctx := s.inFlight[key]; var path := FileOf(cfg, s.dir, ctx);
             var failed := ReachesStore(c) && c.write.SerializeFails?;
             && ctx.tempPath !in t.store.files
             && t.store.files.Keys <= s.store.files.Keys + {path} + (if failed then {TempPath(path)} else {})
             && (failed && TempPath(path) != ctx.tempPath ==> TempPath(path) in t.store.files)
    ensures TempsOwned(t) <==> !LeakyCompletion(cfg, s, key, c)
  {
    hide IsTemp, FileOf, TempPath;
    var ctx := s.inFlight[key];
    var temp := TempPath(FileOf(cfg, s.dir, ctx));
    PathIsNoTemp(cfg, s.dir, ctx);
    OwnedWithout(s, t, key);
    if !LeakyCompletion(cfg, s, key, c) {
      forall path | path in t.store.files && IsTemp(path) ensures Owned(t, path) {
        if path in s.store.files {
          var k :| k in s.inFlight && s.inFlight[k].tempPath == path;
          assert k != key && t.inFlight[k] == s.inFlight[k];
        }
      }
    }
  }

  lemma OwnedWithout(s: State, t: State, key: string)
    requires t.inFlight == s.inFlight - {key}
    ensures forall path :: Owned(t, path) <==> Owned(s.(inFlight := s.inFlight - {key}), path)
  {
  }

  lemma PollTemps(cfg: Config, s: State, key: string, reply: PollReply, at: int)
    requires TempsNamed(cfg, s)
    ensures var now := Poll(cfg, s, key, reply, at);
            && TempsNamed(cfg, now) && now.dir == s.dir
            && (TempsOwned(s) ==>
                  (TempsOwned(now)
                   <==> !(key in s.inFlight && reply.Done? && LeakyCompletion(cfg, s, key, reply.completion))))
  {
    hide TempsNamed, TempsOwned, Owned, Cleanup, FailContext, Complete, Close, TimedOut, SameTemps, LeakyCompletion,
      ReachesStore;
    if key in s.inFlight {
      var ctx := s.inFlight[key];
      match reply
      case Done(c) =>
        DonePoll(cfg, s, key, c, at);
      case InProgress =>
        FailTemps(cfg, s, key, ctx, "AsyncStatus", TimedOut(ctx.profile.retrieval.timeoutSecs), at);
      case OtherStatus(text) =>
        FailTemps(cfg, s, key, ctx, "AsyncStatus", text, at);
      case Throws(what) =>
        FailTemps(cfg, s, key, ctx, "AsyncStatus", what, at);
    }
  }

  lemma DonePoll(cfg: Config, s: State, key: string, c: Completion, at: int)
    requires TempsNamed(cfg, s) && key in s.inFlight
    ensures var now := Poll(cfg, s, key, Done(c), at);
            && TempsNamed(cfg, now) && now.dir == s.dir
            && (TempsOwned(s) ==> (TempsOwned(now) <==> !LeakyCompletion(cfg, s, key, c)))
  {
    hide TempsNamed, TempsOwned, Owned, FailContext, Complete, SameTemps, LeakyCompletion, ReachesStore, TempPath,
      Cleanup, Close;
    var ctx := s.inFlight[key];
    var closing := ctx.(fd := -1);
    var s0 := WithContext(Close(s, ctx.fd), key, closing);
    CloseTemps(cfg, s, key);
    CompleteFiles(cfg, s0, closing, c);
    SameFilePaths(cfg, ctx, closing);
    var (s1, threw) := Complete(cfg, s0, closing, c);
    NamedAgain(cfg, s0, s1);
    var s2 := if threw then FailContext(s1, ctx, "AsyncStatus", c.what, ctx.attempt, at) else s1;
    FailFiles(s1, ctx, "AsyncStatus", c.what, at);
    NamedAgain(cfg, s1, s2);
    CleanupTemps(cfg, s2, key);
    CleanupFiles(s2, key);
    if TempsOwned(s) {
      DropUpdated(s.inFlight, key, closing);
      DoneTemps(cfg, s, Cleanup(s2, key), key, c);
    }
  }

  lemma CloseTemps(cfg: Config, s: State, key: string)
    requires TempsNamed(cfg, s) && key in s.inFlight
    ensures var ctx := s.inFlight[key]; var s0 := WithContext(Close(s, ctx.fd), key, ctx.(fd := -1));
            && TempsNamed(cfg, s0) && s0.store == s.store && s0.dir == s.dir
            && s0.inFlight == s.inFlight[key := ctx.(fd := -1)]
  {
    hide OwnTemp;
    SameFilePaths(cfg, s.inFlight[key], s.inFlight[key].(fd := -1));
  }

  lemma NamedAgain(cfg: Config, s: State, t: State)
    requires TempsNamed(cfg, s) && t.inFlight == s.inFlight
    ensures TempsNamed(cfg, t)
  {
  }

  lemma FailFiles(s: State, ctx: Context, stage: string, detail: string, at: int)
    ensures var now := FailContext(s, ctx, stage, detail, ctx.attempt, at);
            now.inFlight == s.inFlight && now.store == s.store && now.dir == s.dir
  {
  }

  lemma CleanupFiles(s: State, key: string)
    requires key in s.inFlight
    ensures Cleanup(s, key).inFlight == s.inFlight - {key}
    ensures Cleanup(s, key).store.files == s.store.files - {s.inFlight[key].tempPath}
  {
  }

  lemma OpenedTemps(cfg: Config, s: State, p: Profile, component: string, code: nat, r: ReportInput)
    requires TempsNamed(cfg, s) && MakeKey(p.dump.name, component) !in s.inFlight
    ensures var now := Opened(cfg, s, p, component, code, r);
            TempsNamed(cfg, now) && now.dir == s.dir && (TempsOwned(s) ==> TempsOwned(now))
  {
    hide IsTemp, MakeKey, TempPath, FileName, FileIn;
    var key := MakeKey(p.dump.name, component);
    var now := Opened(cfg, s, p, component, code, r);
    assert now.inFlight[key].tempPath == TempPath(FileOf(cfg, s.dir, now.inFlight[key]));
    if TempsOwned(s) {
      forall path | path in now.store.files && IsTemp(path) ensures Owned(now, path) {
        if path == now.inFlight[key].tempPath {
          assert key in now.inFlight;
        } else {
          var k :| k in s.inFlight && s.inFlight[k].tempPath == path;
          assert k in now.inFlight && now.inFlight[k] == s.inFlight[k];
        }
      }
    }
  }

  lemma ReportTemps(cfg: Config, s: State, p: Profile, r: ReportInput)
    requires TempsNamed(cfg, s)
    ensures var now := Report(cfg, s, p, r);
            TempsNamed(cfg, now) && now.dir == s.dir && (TempsOwned(s) ==> TempsOwned(now))
  {
    hide CallDiag, Opened, MayStart, MakeKey, IsTemp, OwnTemp;
    if r.matched.Matched? {
      var component := r.matched.component;
      if MakeKey(p.dump.name, component) !in s.inFlight {
        OpenedTemps(cfg, s, p, component, r.matched.code, r);
        CallDiagTemps(cfg, Opened(cfg, s, p, component, r.matched.code, r), MakeKey(p.dump.name, component), r.diag,
                      r.failedAt);
      }
    }
  }

  lemma {:induction false} ReportAllTemps(cfg: Config, s: State, inputs: seq<ReportInput>, n: nat)
    requires TempsNamed(cfg, s) && n <= |inputs| && n <= |cfg.profiles|
    ensures var now := ReportAll(cfg, s, inputs, n);
            TempsNamed(cfg, now) && now.dir == s.dir && (TempsOwned(s) ==> TempsOwned(now))
  {
    hide Report, TempsOwned, TempsNamed;
    if n > 0 {
      ReportAllTemps(cfg, s, inputs, n - 1);
      ReportTemps(cfg, ReportAll(cfg, s, inputs, n - 1), cfg.profiles[n - 1], inputs[n - 1]);
    }
  }

  lemma TickTemps(cfg: Config, s: State, key: string, input: TickInput)
    requires TempsNamed(cfg, s)
    ensures var now := Tick(cfg, s, key, input);
            TempsNamed(cfg, now) && (TempsOwned(s) ==> (TempsOwned(now) <==> !Leaks(cfg, s, Ticked(key, input))))
  {
    hide TempsOwned, TempsNamed, Owned, CallDiag, Poll, LeakyCompletion;
    if key in s.inFlight {
      var ctx := s.inFlight[key];
      var waited, polled := ctx.(wait := ctx.wait - 1), ctx.(elapsed := ctx.elapsed + 1);
      UpdateTemps(cfg, s, key, waited);
      UpdateTemps(cfg, s, key, polled);
      CallDiagTemps(cfg, WithContext(s, key, waited), key, input.diag, input.at);
      PollTemps(cfg, WithContext(s, key, polled), key, input.poll, input.at);
      if input.poll.Done? {
        LeakySame(cfg, s, key, polled, input.poll.completion);
      }
    }
  }

  lemma LeakySame(cfg: Config, s: State, key: string, ctx: Context, c: Completion)
    requires key in s.inFlight && SameFile(s.inFlight[key], ctx)
    ensures LeakyCompletion(cfg, WithContext(s, key, ctx), key, c) <==> LeakyCompletion(cfg, s, key, c)
  {
    hide Owned, ReachesStore, TempPath, FileOf;
    SameFilePaths(cfg, s.inFlight[key], ctx);
    DropUpdated(s.inFlight, key, ctx);
  }

  /** A step leaves a temporary file without an owner exactly when it leaks. */
  lemma StepTempsIff(cfg: Config, s: State, e: Event)
    requires TempsNamed(cfg, s)
    ensures TempsNamed(cfg, Step(cfg, s, e))
    ensures TempsOwned(s) ==> (TempsOwned(Step(cfg, s, e)) <==> !Leaks(cfg, s, e))
  {
    hide ReportAll, TempsNamed, Severe, Tick, LeakyCompletion, IsTemp;
    match e
    case Reported(severity, inputs) =>
      if |inputs| == |cfg.profiles| {
        ReportAllTemps(cfg, s, inputs, |inputs|);
      }
    case Ticked(key, input) =>
      TickTemps(cfg, s, key, input);
    case Rotated(dir) =>
      NamedAgain(cfg, s, s.(dir := dir));
  }

  lemma {:induction false} RunTempsNamed(cfg: Config, s: State, events: seq<Event>)
    requires TempsNamed(cfg, s)
    ensures TempsNamed(cfg, Run(cfg, s, events))
  {
    hide Step, TempsNamed, Leaks, TempsOwned;
    if events != [] {
      RunTempsNamed(cfg, s, events[..|events| - 1]);
      StepTempsIff(cfg, Run(cfg, s, events[..|events| - 1]), events[|events| - 1]);
    }
  }

  ghost predicate NeverLeaks(cfg: Config, s: State, events: seq<Event>) {
    forall i :: 0 <= i < |events| ==> !Leaks(cfg, Run(cfg, s, events[..i]), events[i])
  }

  ghost predicate AlwaysOwned(cfg: Config, s: State, events: seq<Event>) {
    forall i :: 0 <= i <= |events| ==> TempsOwned(Run(cfg, s, events[..i]))
  }

  /** Over every run, with any window expiries in it: after each step every temporary file on disk
      belongs to a collection in flight, exactly when no serialisation failed in a directory other
      than the one its collection was opened in. */
  lemma {:induction false} NoTempLeaksIff(cfg: Config, s: State, events: seq<Event>)
    requires TempsNamed(cfg, s) && TempsOwned(s)
    ensures AlwaysOwned(cfg, s, events) <==> NeverLeaks(cfg, s, events)
  {
    hide Step, Leaks, TempsOwned, TempsNamed;
    if events == [] {
      assert events[..0] == [];
    } else {
      var n := |events| - 1;
      var earlier := events[..n];
      NoTempLeaksIff(cfg, s, earlier);
      RunTempsNamed(cfg, s, earlier);
      StepTempsIff(cfg, Run(cfg, s, earlier), events[n]);
      assert events[..n + 1] == events;
      OwnedPrefix(cfg, s, events);
      LeakPrefix(cfg, s, events);
      assert AlwaysOwned(cfg, s, earlier) ==> TempsOwned(Run(cfg, s, earlier)) by {
        assert earlier[..n] == earlier;
      }
    }
  }

  lemma OwnedPrefix(cfg: Config, s: State, events: seq<Event>)
    requires events != []
    ensures AlwaysOwned(cfg, s, events)
       <==> AlwaysOwned(cfg, s, events[..|events| - 1]) && TempsOwned(Run(cfg, s, events))
  {
    hide Run, TempsOwned;
    var n := |events| - 1;
    assert events[..n + 1] == events;
    forall i | 0 <= i <= n ensures events[..n][..i] == events[..i] {
    }
    if AlwaysOwned(cfg, s, events) {
      forall i | 0 <= i <= n ensures TempsOwned(Run(cfg, s, events[..n][..i])) {
        assert TempsOwned(Run(cfg, s, events[..i]));
      }
    } else {
      var i :| 0 <= i <= |events| && !TempsOwned(Run(cfg, s, events[..i]));
      assert i <= n ==> !TempsOwned(Run(cfg, s, events[..n][..i]));
    }
  }

  lemma LeakPrefix(cfg: Config, s: State, events: seq<Event>)
    requires events != []
    ensures NeverLeaks(cfg, s, events)
       <==> NeverLeaks(cfg, s, events[..|events| - 1])
            && !Leaks(cfg, Run(cfg, s, events[..|events| - 1]), events[|events| - 1])
  {
    hide Run, Leaks;
    var n := |events| - 1;
    if NeverLeaks(cfg, s, events) {
      forall i | 0 <= i < n ensures !Leaks(cfg, Run(cfg, s, events[..n][..i]), events[..n][i]) {
        assert events[..n][..i] == events[..i] && events[..n][i] == events[i];
      }
    }
    if NeverLeaks(cfg, s, events[..n]) && !Leaks(cfg, Run(cfg, s, events[..n]), events[n]) {
      forall i | 0 <= i < |events| ensures !Leaks(cfg, Run(cfg, s, events[..i]), events[i]) {
        if i < n {
          assert events[..n][..i] == events[..i] && events[..n][i] == events[i];
          assert !Leaks(cfg, Run(cfg, s, events[..n][..i]), events[..n][i]);
        }
      }
    }
  }

  /** The file a failed serialisation leaves is the collection's own exactly where the directory is. */
  lemma OtherFileIffOtherDirectory(cfg: Config, ctx: Context, before: string, now: string)
    requires IsName(before) && IsName(now)
    ensures TempPath(FileOf(cfg, now, ctx)) == TempPath(FileOf(cfg, before, ctx)) <==> now == before
  {
    hide FileName;
    if now != before {
      DirectoryShows(cfg.base, now, before,
        FileName(ctx.profile.dump.section, ctx.component, ctx.profile.dump.storage.filePrefix, ctx.ts));
    }
  }

  lemma DirectoryShows(base: string, a: string, b: string, name: string)
    requires IsName(a) && IsName(b) && a != b
    ensures TempPath(FileIn(base, a, name)) != TempPath(FileIn(base, b, name))
  {
    hide FileIn, Plain;
    FileInParts(base, a, name);
    FileInParts(base, b, name);
    var head, tail := Plain(base + "/"), Plain("/" + name);
    MiddleShows(head, a, b, tail);
  }

  lemma MiddleShows(head: string, a: string, b: string, tail: string)
    requires a != b
    ensures TempPath(head + a + tail) != TempPath(head + b + tail)
  {
    var p, q := TempPath(head + a + tail), TempPath(head + b + tail);
    assert p[|head|..|p| - |tail| - 4] == a && q[|head|..|q| - |tail| - 4] == b;
  }

  /** From startup, for every profile and device: a collection opened in one directory whose
      serialisation fails in the next leaves its file behind with nothing in flight. */
  lemma RotationLeaks(cfg: Config, s: State, i: nat, component: string, next: string) returns (events: seq<Event>)
    requires s.inFlight == map[] && s.debounce == map[] && i < |cfg.profiles|
    requires IsName(s.dir) && IsName(next) && next != s.dir
    ensures var now := Run(cfg, s, events); now.inFlight == map[] && !TempsOwned(now)
  {
    hide ReportAll, FileName, MakeKey, Report, Tick, TempPath, FileIn, ReachesStore, Severe, TempsOwned;
    var p := cfg.profiles[i];
    var key := MakeKey(p.dump.name, component);
    var r := ReportInput(Matched(component, 0), true, 0, 0, 0, true, 0, Accepted);
    var c := Completion(Bytes(1), true, SerializeFails(0), NoFault, "", 0, 0, 0);
    var start, rotate := Reported("Critical", Only(cfg, i, r)), Rotated(next);
    var tick := Ticked(key, TickInput(Accepted, Done(c), 0));
    events := [start, rotate, tick];
    var s1 := Step(cfg, s, start);
    CriticalIsSevere();
    ReachesIt(c);
    OnlyReports(cfg, s, i, r, |cfg.profiles|);
    assert s1 == Report(cfg, s, p, r);
    StartedAccepted(cfg, s, p, component, r);
    ThreeSteps(cfg, s, start, rotate, tick);
    OtherFileIffOtherDirectory(cfg, s1.inFlight[key], s.dir, next);
    FailedElsewhere(cfg, s1.(dir := next), key, tick.input);
  }

  lemma ReachesIt(c: Completion)
    requires c.read == Bytes(1) && c.fault.NoFault? && c.accepts
    ensures ReachesStore(c)
  {
  }

  lemma ThreeSteps(cfg: Config, s: State, a: Event, b: Event, c: Event)
    ensures Run(cfg, s, [a, b, c]) == Step(cfg, Step(cfg, Step(cfg, s, a), b), c)
  {
    hide Step;
    assert [a, b, c][..2] == [a, b] && [a, b][..1] == [a] && [a][..0] == [];
    assert Run(cfg, s, [a]) == Step(cfg, s, a);
    assert Run(cfg, s, [a, b]) == Step(cfg, Step(cfg, s, a), b);
  }

  lemma FailedElsewhere(cfg: Config, s: State, key: string, input: TickInput)
    requires key in s.inFlight && s.inFlight == map[key := s.inFlight[key]] && s.inFlight[key].phase.PollingStatus?
    requires input.poll.Done? && ReachesStore(input.poll.completion) && input.poll.completion.write.SerializeFails?
    requires s.inFlight[key].tempPath != TempPath(FileOf(cfg, s.dir, s.inFlight[key]))
    ensures Tick(cfg, s, key, input).inFlight == map[]
    ensures TempPath(FileOf(cfg, s.dir, s.inFlight[key])) in Tick(cfg, s, key, input).store.files
    ensures !TempsOwned(Tick(cfg, s, key, input))
  {
    hide FileName, FileIn, TempPath, RelativeTo, MakeKey, IsTemp;
    PathIsNoTemp(cfg, s.dir, s.inFlight[key]);
  }
}

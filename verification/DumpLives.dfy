/** Lives of the daemon: runs of the handler with restarts in between, collections in flight or not.
    What a restart leaves on disk and in the books, and what every life keeps. */
module DumpLives {
  import opened Text
  import opened DumpPaths
  import opened DumpStore
  import opened DumpHistory
  import opened DumpRestart
  import opened DumpEndToEnd
  import DH = DumpHandler
  import Sf = DumpSafety
  import Ou = DumpOutcomes
  import Db = DumpDebounce

  /** A callback of the handler, or a restart: the live directory after it, what the startup scan saw
      and the index it built. */
  datatype Move = Happens(e: DH.Event) | Restarts(dir: string, tree: seq<BootDir>, index: map<string, Queue>)

  /** Everything in memory is gone, descriptors are closed, files stay; the startup recovery scan
      does nothing. */
  function Restart(s: DH.State, dir: string, index: map<string, Queue>): DH.State {
    DH.State(dir, map[], map[], {}, 0, Contents(index, s.store.files), s.rows, s.failures, s.journal)
  }

  function Do(cfg: DH.Config, s: DH.State, m: Move): DH.State {
    match m
    case Happens(e) => DH.Step(cfg, s, e)
    case Restarts(dir, tree, index) => Restart(s, dir, index)
  }

  function Live(cfg: DH.Config, s: DH.State, moves: seq<Move>): DH.State {
    if moves == [] then s else Do(cfg, Live(cfg, s, moves[..|moves| - 1]), moves[|moves| - 1])
  }

  /** Reports name components that the platform serves and times of 64 bits, directories have names,
      and a restart builds its index from the disk it finds. */
  ghost predicate Plays(cfg: DH.Config, sections: seq<Section>, s: DH.State, m: Move) {
    match m
    case Happens(e) => PlausibleEvent(cfg, sections, e)
    case Restarts(dir, tree, index) =>
      && IsName(dir)
      && Restarted(cfg.base, Dumps(cfg), sections, tree, s.store, Contents(index, s.store.files))
  }

  ghost predicate PlausibleEvent(cfg: DH.Config, sections: seq<Section>, e: DH.Event) {
    match e
    case Reported(severity, inputs) =>
      forall i :: 0 <= i < |inputs| && i < |cfg.profiles| ==> PlausibleReport(cfg, sections, cfg.profiles[i], inputs[i])
    case Ticked(key, input) => true
    case Rotated(dir) => IsName(dir)
  }

  ghost predicate PlausibleReport(cfg: DH.Config, sections: seq<Section>, p: DH.Profile, r: DH.ReportInput) {
    r.matched.Matched? ==>
      Serves(Dumps(cfg), sections, p.dump, r.matched.component) && INT64_MIN <= r.startAt <= INT64_MAX
  }

  ghost predicate Plausible(cfg: DH.Config, sections: seq<Section>, s: DH.State, moves: seq<Move>) {
    forall i :: 0 <= i < |moves| ==> Plays(cfg, sections, Live(cfg, s, moves[..i]), moves[i])
  }

  lemma PlausiblePrefix(cfg: DH.Config, sections: seq<Section>, s: DH.State, moves: seq<Move>)
    requires Plausible(cfg, sections, s, moves) && moves != []
    ensures Plausible(cfg, sections, s, moves[..|moves| - 1])
    ensures Plays(cfg, sections, Live(cfg, s, moves[..|moves| - 1]), moves[|moves| - 1])
  {
    hide Live, Plays;
    var n := |moves| - 1;
    forall i | 0 <= i < n ensures Plays(cfg, sections, Live(cfg, s, moves[..n][..i]), moves[..n][i]) {
      assert moves[..n][..i] == moves[..i];
    }
  }

  // ---------------------------------------------------------------- what a step does to one collection

  /** No temporary file but those named is removed. */
  ghost predicate Spares(c: Contents, d: Contents, paths: set<string>) {
    forall path :: Sf.IsTemp(path) && path in c.files && path !in paths ==> path in d.files
  }

  lemma StoredSpares(c: Contents, p: DumpProfile, path: string, ts: int, outcome: WriteOutcome)
    requires NoTempsQueued(c) && !Sf.IsTemp(path)
    ensures var d := Stored(c, p, path, ts, outcome, {}); NoTempsQueued(d) && Spares(c, d, {TempPath(path)})
  {
    hide Evict, Sf.IsTemp, TempPath, BudgetBytes;
    if outcome.Written? {
      var queue := QueueOf(c.index, p.name) + [DumpEntry(path, ts)];
      var j := EvictDrops(queue, FilesAfterWrite(c.files, path, outcome, {}), BudgetBytes(p.storage.budgetMB));
    }
  }

  lemma CompleteSpares(cfg: DH.Config, s: DH.State, ctx: DH.Context, c: DH.Completion)
    requires NoTempsQueued(s.store)
    ensures var now := DH.Complete(cfg, s, ctx, c).0;
            && now.inFlight == s.inFlight && now.dir == s.dir && NoTempsQueued(now.store)
            && Spares(s.store, now.store, {TempPath(DH.FileOf(cfg, s.dir, ctx))})
  {
    hide Stored, NoTempsQueued, DH.FileOf, DH.PathOf, DH.RelativeTo, DH.MakeKey, TempPath, Sf.IsTemp;
    Sf.PathIsNoTemp(cfg, s.dir, ctx);
    StoredSpares(s.store, ctx.profile.dump, DH.FileOf(cfg, s.dir, ctx), ctx.ts, c.write);
  }

  lemma CleanupSpares(s: DH.State, key: string)
    requires key in s.inFlight
    ensures var now := DH.Cleanup(s, key);
            && now.inFlight == s.inFlight - {key} && now.dir == s.dir && now.store.index == s.store.index
            && now.store.files == s.store.files - {s.inFlight[key].tempPath}
  {
  }

  /** One collection goes on with other counters, or ends; no other is touched. */
  ghost predicate Moves(s: DH.State, t: DH.State, key: string, paths: set<string>)
    requires key in s.inFlight
  {
    && t.dir == s.dir && (NoTempsQueued(s.store) ==> NoTempsQueued(t.store))
    && if key in t.inFlight
       then Sf.SameFile(s.inFlight[key], t.inFlight[key]) && t.inFlight == s.inFlight[key := t.inFlight[key]]
       && t.store == s.store
       else t.inFlight == s.inFlight - {key} && (NoTempsQueued(s.store) ==> Spares(s.store, t.store, paths))
  }

  lemma CallDiagMoves(s: DH.State, key: string, reply: DH.DiagReply, at: int)
    requires key in s.inFlight
    ensures Moves(s, DH.CallDiag(s, key, reply, at), key, {s.inFlight[key].tempPath})
  {
    hide DH.Cleanup, DH.Retries, DH.Backoff, Sf.IsTemp, NoTempsQueued;
    var ctx := s.inFlight[key].(attempt := s.inFlight[key].attempt + 1);
    if !reply.Accepted? {
      var called := DH.WithContext(s, key, ctx);
      FailMoves(called, key, ctx, "GetDiagnostics", reply.what, at);
      UpdateThenMoves(s, key, ctx,
                      DH.Cleanup(DH.FailContext(called, ctx, "GetDiagnostics", reply.what, ctx.attempt, at), key),
                      {ctx.tempPath});
    }
  }

  lemma FailMoves(s: DH.State, key: string, ctx: DH.Context, stage: string, detail: string, at: int)
    requires key in s.inFlight
    ensures Moves(s, DH.Cleanup(DH.FailContext(s, ctx, stage, detail, ctx.attempt, at), key), key,
                  {s.inFlight[key].tempPath})
  {
    hide DH.Cleanup, Sf.IsTemp, NoTempsQueued;
    var failed := DH.FailContext(s, ctx, stage, detail, ctx.attempt, at);
    CleanupSpares(failed, key);
    SameIndexQueued(s.store, DH.Cleanup(failed, key).store);
  }

  lemma SameIndexQueued(c: Contents, d: Contents)
    requires c.index == d.index
    ensures NoTempsQueued(c) <==> NoTempsQueued(d)
  {
  }

  /** Counting first makes no difference. */
  lemma UpdateThenMoves(s: DH.State, key: string, ctx: DH.Context, t: DH.State, paths: set<string>)
    requires key in s.inFlight && Sf.SameFile(s.inFlight[key], ctx)
    requires Moves(DH.WithContext(s, key, ctx), t, key, paths)
    ensures Moves(s, t, key, paths)
  {
    hide NoTempsQueued, Spares;
    DH.DropUpdated(s.inFlight, key, ctx);
    if key in t.inFlight {
      assert s.inFlight[key := ctx][key := t.inFlight[key]] == s.inFlight[key := t.inFlight[key]];
    }
  }

  lemma MorePaths(s: DH.State, t: DH.State, key: string, few: set<string>, paths: set<string>)
    requires key in s.inFlight && Moves(s, t, key, few) && few <= paths
    ensures Moves(s, t, key, paths)
  {
    hide NoTempsQueued, Sf.IsTemp, Sf.SameFile;
  }

  /** The two temporary files that ending a collection can remove: its own, and the one its dump would
      have in the live directory. */
  function EndPaths(cfg: DH.Config, s: DH.State, key: string): set<string>
    requires key in s.inFlight
  {
    {s.inFlight[key].tempPath, TempPath(DH.FileOf(cfg, s.dir, s.inFlight[key]))}
  }

  lemma DoneMoves(cfg: DH.Config, s: DH.State, key: string, c: DH.Completion, at: int)
    requires key in s.inFlight
    ensures Moves(s, DH.Poll(cfg, s, key, DH.Done(c), at), key, EndPaths(cfg, s, key))
    ensures key !in DH.Poll(cfg, s, key, DH.Done(c), at).inFlight
  {
    hide NoTempsQueued, Sf.IsTemp, DH.Complete, DH.Cleanup, DH.FileOf, TempPath;
    var ctx := s.inFlight[key];
    var closing := ctx.(fd := -1);
    var s0 := DH.WithContext(DH.Close(s, ctx.fd), key, closing);
    Sf.SameFilePaths(cfg, ctx, closing);
    var (s1, threw) := DH.Complete(cfg, s0, closing, c);
    CompleteKeeps(cfg, s0, closing, c);
    if NoTempsQueued(s.store) {
      CompleteSpares(cfg, s0, closing, c);
    }
    var s2 := if threw then DH.FailContext(s1, ctx, "AsyncStatus", c.what, ctx.attempt, at) else s1;
    CleanupSpares(s2, key);
    SameIndexQueued(s1.store, DH.Cleanup(s2, key).store);
    DH.DropUpdated(s.inFlight, key, closing);
  }

  lemma CompleteKeeps(cfg: DH.Config, s: DH.State, ctx: DH.Context, c: DH.Completion)
    ensures var now := DH.Complete(cfg, s, ctx, c).0; now.inFlight == s.inFlight && now.dir == s.dir
  {
    hide Stored, DH.FileOf, DH.PathOf, DH.RelativeTo, DH.MakeKey;
  }

  lemma PollMoves(cfg: DH.Config, s: DH.State, key: string, reply: DH.PollReply, at: int)
    requires key in s.inFlight
    ensures Moves(s, DH.Poll(cfg, s, key, reply, at), key, EndPaths(cfg, s, key))
  {
    hide NoTempsQueued, Sf.IsTemp, DH.Complete, DH.Cleanup, DH.FailContext, DH.FileOf, TempPath, DH.TimedOut, Moves;
    var ctx := s.inFlight[key];
    var own := {ctx.tempPath};
    match reply
    case Done(c) =>
      DoneMoves(cfg, s, key, c, at);
    case InProgress =>
      var detail := DH.TimedOut(ctx.profile.retrieval.timeoutSecs);
      FailMoves(s, key, ctx, "AsyncStatus", detail, at);
      MorePaths(s, DH.Cleanup(DH.FailContext(s, ctx, "AsyncStatus", detail, ctx.attempt, at), key), key, own,
                EndPaths(cfg, s, key));
      StandsStill(s, key, EndPaths(cfg, s, key));
    case OtherStatus(text) =>
      FailMoves(s, key, ctx, "AsyncStatus", text, at);
      MorePaths(s, DH.Cleanup(DH.FailContext(s, ctx, "AsyncStatus", text, ctx.attempt, at), key), key, own,
                EndPaths(cfg, s, key));
    case Throws(what) =>
      FailMoves(s, key, ctx, "AsyncStatus", what, at);
      MorePaths(s, DH.Cleanup(DH.FailContext(s, ctx, "AsyncStatus", what, ctx.attempt, at), key), key, own,
                EndPaths(cfg, s, key));
  }

  lemma StandsStill(s: DH.State, key: string, paths: set<string>)
    requires key in s.inFlight
    ensures Moves(s, s, key, paths)
  {
    hide NoTempsQueued;
  }

  lemma TickMoves(cfg: DH.Config, s: DH.State, key: string, input: DH.TickInput)
    requires key in s.inFlight
    ensures Moves(s, DH.Tick(cfg, s, key, input), key, EndPaths(cfg, s, key))
  {
    hide NoTempsQueued, Sf.IsTemp, DH.CallDiag, DH.Poll, Moves, DH.FileOf, TempPath;
    var ctx := s.inFlight[key];
    var waited, polled := ctx.(wait := ctx.wait - 1), ctx.(elapsed := ctx.elapsed + 1);
    match ctx.phase
    case RetryWaiting =>
      var s1 := DH.WithContext(s, key, waited);
      StandsStill(s1, key, EndPaths(cfg, s, key));
      CallDiagMoves(s1, key, input.diag, input.at);
      MorePaths(s1, DH.CallDiag(s1, key, input.diag, input.at), key, {ctx.tempPath}, EndPaths(cfg, s, key));
      UpdateThenMoves(s, key, waited, DH.Tick(cfg, s, key, input), EndPaths(cfg, s, key));
    case PollingStatus =>
      var s1 := DH.WithContext(s, key, polled);
      Sf.SameFilePaths(cfg, ctx, polled);
      PollMoves(cfg, s1, key, input.poll, input.at);
      UpdateThenMoves(s, key, polled, DH.Tick(cfg, s, key, input), EndPaths(cfg, s, key));
    case AwaitingGetDiag =>
      StandsStill(s, key, EndPaths(cfg, s, key));
  }

  // ---------------------------------------------------------------- what a report does

  /** Nothing but a FAILED row, or a new collection that goes on or ends at once. */
  ghost predicate Begins(cfg: DH.Config, s: DH.State, t: DH.State, p: DH.Profile, r: DH.ReportInput) {
    && t.dir == s.dir && (NoTempsQueued(s.store) ==> NoTempsQueued(t.store))
    && (|| (t.inFlight == s.inFlight && t.store == s.store)
        || (r.matched.Matched?
            && BeginsOne(s, t, DH.MakeKey(p.dump.name, r.matched.component),
                         DH.NewContext(cfg, s.dir, p, r.matched.component, r.matched.code, r.startAt, r.fd))))
  }

  ghost predicate BeginsOne(s: DH.State, t: DH.State, key: string, ctx: DH.Context) {
    && key !in s.inFlight
    && if key in t.inFlight
       then Sf.SameFile(ctx, t.inFlight[key]) && t.inFlight == s.inFlight[key := t.inFlight[key]]
            && t.store.files == s.store.files[ctx.tempPath := 0]
       else t.inFlight == s.inFlight && (NoTempsQueued(s.store) ==> Spares(s.store, t.store, {ctx.tempPath}))
  }

  lemma ReportBegins(cfg: DH.Config, s: DH.State, p: DH.Profile, r: DH.ReportInput)
    ensures Begins(cfg, s, DH.Report(cfg, s, p, r), p, r)
  {
    hide NoTempsQueued, DH.CallDiag, DH.MayStart, DH.MakeKey, Sf.IsTemp, FileName, FileIn, TempPath;
    if r.matched.Matched? {
      var key := DH.MakeKey(p.dump.name, r.matched.component);
      if key !in s.inFlight {
        var begun := DH.Opened(cfg, s, p, r.matched.component, r.matched.code, r);
        var ctx := DH.NewContext(cfg, s.dir, p, r.matched.component, r.matched.code, r.startAt, r.fd);
        CallDiagMoves(begun, key, r.diag, r.failedAt);
        SameIndexQueued(s.store, begun.store);
        var t := DH.CallDiag(begun, key, r.diag, r.failedAt);
        assert begun.inFlight[key] == ctx && begun.inFlight - {key} == s.inFlight;
        if key in t.inFlight {
          assert s.inFlight[key := ctx][key := t.inFlight[key]] == s.inFlight[key := t.inFlight[key]];
        }
      }
    }
  }

  // ---------------------------------------------------------------- every collection keeps its file

  function NameOf(ctx: DH.Context): string {
    FileName(ctx.profile.dump.section, ctx.component, ctx.profile.dump.storage.filePrefix, ctx.ts)
  }

  /** Whose collection it is. */
  ghost predicate Owner(cfg: DH.Config, sections: seq<Section>, key: string, ctx: DH.Context) {
    && DH.MakeKey(ctx.profile.dump.name, ctx.component) == key
    && Serves(Dumps(cfg), sections, ctx.profile.dump, ctx.component)
    && IsName(NameOf(ctx)) && INT64_MIN <= ctx.ts <= INT64_MAX
  }

  ghost predicate HasTemp(cfg: DH.Config, ctx: DH.Context) {
    exists dir :: IsName(dir) && ctx.tempPath == TempPath(DH.FileOf(cfg, dir, ctx))
  }

  ghost predicate Sane(cfg: DH.Config, sections: seq<Section>, s: DH.State) {
    && IsName(s.dir) && NoTempsQueued(s.store)
    && forall k :: k in s.inFlight ==>
         && Owner(cfg, sections, k, s.inFlight[k]) && HasTemp(cfg, s.inFlight[k])
         && s.inFlight[k].tempPath in s.store.files
  }

  /** The platform tells its dumps apart. */
  ghost predicate Rules(cfg: DH.Config, sections: seq<Section>) {
    Platform(cfg.base, Dumps(cfg), sections) && PlainNames(Dumps(cfg), sections)
  }

  /** Different collections never share a temporary file, whatever the directories. */
  lemma FilesApart(cfg: DH.Config, sections: seq<Section>, k: string, a: DH.Context, dir: string,
                   k': string, b: DH.Context, dir': string)
    requires Rules(cfg, sections) && IsName(dir) && IsName(dir')
    requires Owner(cfg, sections, k, a) && Owner(cfg, sections, k', b) && k != k'
    ensures TempPath(DH.FileOf(cfg, dir, a)) != TempPath(DH.FileOf(cfg, dir', b))
  {
    hide FileName, FileIn, IsName, IsDumpName, PrefixFree, PlainNames, Serves, DH.MakeKey, Dumps;
    if TempPath(DH.FileOf(cfg, dir, a)) == TempPath(DH.FileOf(cfg, dir', b)) {
      SameWithoutTemp(DH.FileOf(cfg, dir, a), DH.FileOf(cfg, dir', b));
      FileDecides(cfg.base, dir, NameOf(a), dir', NameOf(b));
      NameIsDump(a.profile.dump.section, a.component, a.profile.dump.storage.filePrefix, a.ts);
      NameIsDump(b.profile.dump.section, b.component, b.profile.dump.storage.filePrefix, b.ts);
      OneOwner(Dumps(cfg), sections, NameOf(a), a.profile.dump, a.component, b.profile.dump, b.component);
    }
  }

  lemma SameWithoutTemp(p: string, q: string)
    requires TempPath(p) == TempPath(q)
    ensures p == q
  {
    assert TempPath(p)[..|p|] == p && TempPath(q)[..|q|] == q;
  }

  lemma SameOwner(cfg: DH.Config, sections: seq<Section>, key: string, a: DH.Context, b: DH.Context)
    requires Sf.SameFile(a, b)
    ensures Owner(cfg, sections, key, a) ==> Owner(cfg, sections, key, b)
    ensures HasTemp(cfg, a) ==> HasTemp(cfg, b)
  {
    hide FileName, FileIn, IsName, Serves, Dumps, DH.FileOf, TempPath;
    Sf.SameFilePaths(cfg, a, b);
  }

  /** Ending one collection leaves the files of the others. */
  lemma OthersSpared(cfg: DH.Config, sections: seq<Section>, s: DH.State, key: string, k: string)
    requires Rules(cfg, sections) && Sane(cfg, sections, s) && key in s.inFlight && k in s.inFlight && k != key
    ensures s.inFlight[k].tempPath !in EndPaths(cfg, s, key) && Sf.IsTemp(s.inFlight[k].tempPath)
  {
    hide Rules, Owner, NoTempsQueued, DH.FileOf, TempPath, Sf.IsTemp, IsName;
    var a, b := s.inFlight[key], s.inFlight[k];
    var dirA :| IsName(dirA) && a.tempPath == TempPath(DH.FileOf(cfg, dirA, a));
    var dirB :| IsName(dirB) && b.tempPath == TempPath(DH.FileOf(cfg, dirB, b));
    FilesApart(cfg, sections, key, a, dirA, k, b, dirB);
    FilesApart(cfg, sections, key, a, s.dir, k, b, dirB);
    Sf.PathIsNoTemp(cfg, dirB, b);
  }

  lemma TickSane(cfg: DH.Config, sections: seq<Section>, s: DH.State, key: string, input: DH.TickInput)
    requires Rules(cfg, sections) && Sane(cfg, sections, s)
    ensures Sane(cfg, sections, DH.Tick(cfg, s, key, input))
  {
    hide Rules, Owner, HasTemp, NoTempsQueued, DH.Tick, Sf.IsTemp, IsName, Sf.SameFile;
    if key in s.inFlight {
      TickMoves(cfg, s, key, input);
      var t := DH.Tick(cfg, s, key, input);
      if key in t.inFlight {
        SameOwner(cfg, sections, key, s.inFlight[key], t.inFlight[key]);
        SameTempPath(s.inFlight[key], t.inFlight[key]);
      }
      forall k | k in t.inFlight && k != key
        ensures k in s.inFlight && t.inFlight[k] == s.inFlight[k] && t.inFlight[k].tempPath in t.store.files
      {
        OthersSpared(cfg, sections, s, key, k);
      }
    } else {
      NoTick(cfg, s, key, input);
    }
  }

  lemma SameTempPath(a: DH.Context, b: DH.Context)
    requires Sf.SameFile(a, b)
    ensures a.tempPath == b.tempPath && a.ts == b.ts
  {
  }

  lemma NoTick(cfg: DH.Config, s: DH.State, key: string, input: DH.TickInput)
    requires key !in s.inFlight
    ensures DH.Tick(cfg, s, key, input) == s
  {
  }

  /** A new collection has an owner and a file of its own. */
  lemma NewIsOwned(cfg: DH.Config, sections: seq<Section>, s: DH.State, p: DH.Profile, component: string, code: nat,
                   ts: int, fd: int)
    requires Rules(cfg, sections) && IsName(s.dir) && Serves(Dumps(cfg), sections, p.dump, component)
    requires INT64_MIN <= ts <= INT64_MAX
    ensures var ctx := DH.NewContext(cfg, s.dir, p, component, code, ts, fd);
            && Owner(cfg, sections, DH.MakeKey(p.dump.name, component), ctx) && HasTemp(cfg, ctx)
            && ctx.tempPath == TempPath(DH.FileOf(cfg, s.dir, ctx))
  {
    hide FileIn, TempPath, Platform, Dumps, DH.MakeKey, NamePrefix, IntToString;
    var ctx := DH.NewContext(cfg, s.dir, p, component, code, ts, fd);
    PrintedTime(ts);
    assert '/' !in PrefixOf(p.dump, component);
    assert NameOf(ctx) == PrefixOf(p.dump, component) + IntToString(ts) + ".dat";
    assert ctx.tempPath == TempPath(DH.FileOf(cfg, s.dir, ctx));
  }

  lemma ReportSane(cfg: DH.Config, sections: seq<Section>, s: DH.State, p: DH.Profile, r: DH.ReportInput)
    requires Rules(cfg, sections) && Sane(cfg, sections, s) && PlausibleReport(cfg, sections, p, r)
    ensures Sane(cfg, sections, DH.Report(cfg, s, p, r))
  {
    hide Rules, Owner, HasTemp, NoTempsQueued, DH.Report, DH.NewContext, Sf.IsTemp, IsName, Sf.SameFile, DH.MakeKey,
      Serves;
    ReportBegins(cfg, s, p, r);
    var t := DH.Report(cfg, s, p, r);
    if r.matched.Matched? && !(t.inFlight == s.inFlight && t.store == s.store) {
      var key := DH.MakeKey(p.dump.name, r.matched.component);
      var ctx := DH.NewContext(cfg, s.dir, p, r.matched.component, r.matched.code, r.startAt, r.fd);
      NewIsOwned(cfg, sections, s, p, r.matched.component, r.matched.code, r.startAt, r.fd);
      if key in t.inFlight {
        SameOwner(cfg, sections, key, ctx, t.inFlight[key]);
        SameTempPath(ctx, t.inFlight[key]);
      } else {
        forall k | k in s.inFlight ensures s.inFlight[k].tempPath in t.store.files {
          NewSpares(cfg, sections, s, key, ctx, k);
        }
      }
    }
  }

  lemma NewSpares(cfg: DH.Config, sections: seq<Section>, s: DH.State, key: string, ctx: DH.Context, k: string)
    requires Rules(cfg, sections) && Sane(cfg, sections, s) && key !in s.inFlight && k in s.inFlight
    requires Owner(cfg, sections, key, ctx) && ctx.tempPath == TempPath(DH.FileOf(cfg, s.dir, ctx))
    ensures s.inFlight[k].tempPath != ctx.tempPath && Sf.IsTemp(s.inFlight[k].tempPath)
  {
    hide Rules, Owner, NoTempsQueued, DH.FileOf, TempPath, Sf.IsTemp, IsName;
    var b := s.inFlight[k];
    var dir :| IsName(dir) && b.tempPath == TempPath(DH.FileOf(cfg, dir, b));
    FilesApart(cfg, sections, key, ctx, s.dir, k, b, dir);
    Sf.PathIsNoTemp(cfg, dir, b);
  }

  lemma {:induction false} ReportAllSane(cfg: DH.Config, sections: seq<Section>, s: DH.State,
                                         inputs: seq<DH.ReportInput>, n: nat)
    requires Rules(cfg, sections) && Sane(cfg, sections, s) && n <= |inputs| && n <= |cfg.profiles|
    requires forall i :: 0 <= i < n ==> PlausibleReport(cfg, sections, cfg.profiles[i], inputs[i])
    ensures Sane(cfg, sections, DH.ReportAll(cfg, s, inputs, n))
  {
    hide DH.Report, Sane, Rules, PlausibleReport;
    if n > 0 {
      ReportAllSane(cfg, sections, s, inputs, n - 1);
      ReportSane(cfg, sections, DH.ReportAll(cfg, s, inputs, n - 1), cfg.profiles[n - 1], inputs[n - 1]);
    }
  }

  /** A restart indexes no temporary file. */
  lemma RestartQueuesNoTemps(cfg: DH.Config, sections: seq<Section>, tree: seq<BootDir>, before: Contents, c: Contents)
    requires Restarted(cfg.base, Dumps(cfg), sections, tree, before, c)
    ensures NoTempsQueued(c)
  {
    hide Walks, Rebuilt, Sf.IsTemp, EndsWith, Dumps, AllFiles;
    forall name, i | name in c.index && 0 <= i < |c.index[name]| ensures !Sf.IsTemp(c.index[name][i].path) {
      assert QueueOf(c.index, name) == c.index[name];
      var p :| p in Dumps(cfg) && p.name == name;
      OnlyDatFilesAreIndexed(c.index, cfg.base, p, sections, tree, c.index[name][i]);
      TempEnds(c.index[name][i].path);
    }
  }

  lemma TempEnds(path: string)
    ensures Sf.IsTemp(path) <==> EndsWith(path, ".tmp")
  {
  }

  lemma MoveSane(cfg: DH.Config, sections: seq<Section>, s: DH.State, m: Move)
    requires Rules(cfg, sections) && Sane(cfg, sections, s) && Plays(cfg, sections, s, m)
    ensures Sane(cfg, sections, Do(cfg, s, m))
  {
    hide Rules, Owner, HasTemp, NoTempsQueued, DH.ReportAll, DH.Tick, IsName, PlausibleReport, Restarted, DH.Severe;
    match m
    case Happens(e) =>
      match e {
        case Reported(severity, inputs) =>
          if |inputs| == |cfg.profiles| {
            ReportAllSane(cfg, sections, s, inputs, |inputs|);
          }
        case Ticked(key, input) =>
          TickSane(cfg, sections, s, key, input);
        case Rotated(dir) =>
      }
    case Restarts(dir, tree, index) =>
      RestartQueuesNoTemps(cfg, sections, tree, s.store, Contents(index, s.store.files));
  }

  /** In every life each collection has its temporary file on disk from its start to its end, in
      whatever directory, and shares it with no other. */
  lemma {:induction false} LivesStaySane(cfg: DH.Config, sections: seq<Section>, s: DH.State, moves: seq<Move>)
    requires Rules(cfg, sections) && Sane(cfg, sections, s) && Plausible(cfg, sections, s, moves)
    ensures Sane(cfg, sections, Live(cfg, s, moves))
  {
    hide Rules, Sane, Do, Plays, Plausible;
    if moves != [] {
      PlausiblePrefix(cfg, sections, s, moves);
      LivesStaySane(cfg, sections, s, moves[..|moves| - 1]);
      MoveSane(cfg, sections, Live(cfg, s, moves[..|moves| - 1]), moves[|moves| - 1]);
    }
  }

  // ---------------------------------------------------------------- temporary files

  lemma SaneIsNamed(cfg: DH.Config, sections: seq<Section>, s: DH.State)
    requires Sane(cfg, sections, s)
    ensures Sf.TempsNamed(cfg, s)
  {
    hide Owner, NoTempsQueued, DH.FileOf, TempPath, IsName;
  }

  /** A restart leaves behind exactly the temporary files of the collections in flight, and no one to
      remove them. */
  lemma RestartLeaves(cfg: DH.Config, sections: seq<Section>, s: DH.State, dir: string, index: map<string, Queue>)
    requires Sane(cfg, sections, s) && Sf.TempsOwned(s)
    ensures var now := Restart(s, dir, index);
            && (forall path :: path in now.store.files && Sf.IsTemp(path) <==> Sf.Owned(s, path))
            && (forall path :: !Sf.Owned(now, path))
            && (Sf.TempsOwned(now) <==> s.inFlight == map[])
  {
    hide Owner, NoTempsQueued, Sf.IsTemp, IsName, HasTemp;
    var now := Restart(s, dir, index);
    forall path ensures path in now.store.files && Sf.IsTemp(path) <==> Sf.Owned(s, path) {
      if Sf.Owned(s, path) {
        var k :| k in s.inFlight && s.inFlight[k].tempPath == path;
        TempOfContext(cfg, s.inFlight[k]);
      }
    }
    if s.inFlight != map[] {
      var k :| k in s.inFlight;
      assert Sf.Owned(s, s.inFlight[k].tempPath);
    }
  }

  lemma TempOfContext(cfg: DH.Config, ctx: DH.Context)
    requires HasTemp(cfg, ctx)
    ensures Sf.IsTemp(ctx.tempPath)
  {
    hide Sf.IsTemp, IsName, TempPath, DH.FileOf;
    var dir :| IsName(dir) && ctx.tempPath == TempPath(DH.FileOf(cfg, dir, ctx));
    Sf.PathIsNoTemp(cfg, dir, ctx);
  }

  /** A move that leaves no temporary file without an owner: no serialisation fails in another directory,
      and no restart finds a collection in flight. */
  ghost predicate Tidy(cfg: DH.Config, s: DH.State, m: Move) {
    match m
    case Happens(e) => !Sf.Leaks(cfg, s, e)
    case Restarts(dir, tree, index) => s.inFlight == map[]
  }

  ghost predicate AllTidy(cfg: DH.Config, s: DH.State, moves: seq<Move>) {
    forall i :: 0 <= i < |moves| ==> Tidy(cfg, Live(cfg, s, moves[..i]), moves[i])
  }

  ghost predicate AlwaysOwned(cfg: DH.Config, s: DH.State, moves: seq<Move>) {
    forall i :: 0 <= i <= |moves| ==> Sf.TempsOwned(Live(cfg, s, moves[..i]))
  }

  lemma MoveTidyIff(cfg: DH.Config, sections: seq<Section>, s: DH.State, m: Move)
    requires Sane(cfg, sections, s) && Sf.TempsOwned(s)
    ensures Sf.TempsOwned(Do(cfg, s, m)) <==> Tidy(cfg, s, m)
  {
    hide Sane, Sf.TempsOwned, Sf.Leaks, DH.Step;
    match m
    case Happens(e) =>
      SaneIsNamed(cfg, sections, s);
      Sf.StepTempsIff(cfg, s, e);
    case Restarts(dir, tree, index) =>
      RestartLeaves(cfg, sections, s, dir, index);
  }

  /** Over every life: each temporary file on disk belongs to a collection in flight after every move,
      exactly when every move is tidy. */
  lemma {:induction false} LiveTempsIff(cfg: DH.Config, sections: seq<Section>, s: DH.State, moves: seq<Move>)
    requires Rules(cfg, sections) && Sane(cfg, sections, s) && Sf.TempsOwned(s) && Plausible(cfg, sections, s, moves)
    ensures AlwaysOwned(cfg, s, moves) <==> AllTidy(cfg, s, moves)
  {
    hide Rules, Sane, Sf.TempsOwned, Tidy, Plausible, Do;
    if moves == [] {
      assert moves[..0] == [];
    } else {
      var n := |moves| - 1;
      var earlier := moves[..n];
      PlausiblePrefix(cfg, sections, s, moves);
      LiveTempsIff(cfg, sections, s, earlier);
      LivesStaySane(cfg, sections, s, earlier);
      OwnedPrefix(cfg, s, moves);
      TidyPrefix(cfg, s, moves);
      if AlwaysOwned(cfg, s, earlier) {
        assert earlier[..n] == earlier;
        MoveTidyIff(cfg, sections, Live(cfg, s, earlier), moves[n]);
      }
    }
  }

  lemma OwnedPrefix(cfg: DH.Config, s: DH.State, moves: seq<Move>)
    requires moves != []
    ensures AlwaysOwned(cfg, s, moves)
       <==> AlwaysOwned(cfg, s, moves[..|moves| - 1]) && Sf.TempsOwned(Live(cfg, s, moves))
  {
    hide Live, Sf.TempsOwned;
    var n := |moves| - 1;
    assert moves[..n + 1] == moves;
    forall i | 0 <= i <= n ensures moves[..n][..i] == moves[..i] {
    }
    if AlwaysOwned(cfg, s, moves) {
      forall i | 0 <= i <= n ensures Sf.TempsOwned(Live(cfg, s, moves[..n][..i])) {
        assert Sf.TempsOwned(Live(cfg, s, moves[..i]));
      }
    } else {
      var i :| 0 <= i <= |moves| && !Sf.TempsOwned(Live(cfg, s, moves[..i]));
      assert i <= n ==> !Sf.TempsOwned(Live(cfg, s, moves[..n][..i]));
    }
  }

  lemma TidyPrefix(cfg: DH.Config, s: DH.State, moves: seq<Move>)
    requires moves != []
    ensures AllTidy(cfg, s, moves)
       <==> AllTidy(cfg, s, moves[..|moves| - 1]) && Tidy(cfg, Live(cfg, s, moves[..|moves| - 1]), moves[|moves| - 1])
  {
    hide Live, Tidy;
    var n := |moves| - 1;
    if AllTidy(cfg, s, moves) {
      forall i | 0 <= i < n ensures Tidy(cfg, Live(cfg, s, moves[..n][..i]), moves[..n][i]) {
        assert moves[..n][..i] == moves[..i] && moves[..n][i] == moves[i];
      }
    }
    if AllTidy(cfg, s, moves[..n]) && Tidy(cfg, Live(cfg, s, moves[..n]), moves[n]) {
      forall i | 0 <= i < |moves| ensures Tidy(cfg, Live(cfg, s, moves[..i]), moves[i]) {
        if i < n {
          assert moves[..n][..i] == moves[..i] && moves[..n][i] == moves[i];
          assert Tidy(cfg, Live(cfg, s, moves[..n][..i]), moves[..n][i]);
        }
      }
    }
  }

  // ---------------------------------------------------------------- outcomes

  /** How often a restart found a collection of the key in flight. */
  function Dropped(cfg: DH.Config, s: DH.State, moves: seq<Move>, key: string): nat {
    if moves == [] then 0
    else
      var n := |moves| - 1;
      Dropped(cfg, s, moves[..n], key) + if moves[n].Restarts? then Ou.InFlight(Live(cfg, s, moves[..n]), key) else 0
  }

  function LateMoves(cfg: DH.Config, s: DH.State, moves: seq<Move>, key: string): nat {
    if moves == [] then 0
    else
      var n := |moves| - 1;
      LateMoves(cfg, s, moves[..n], key)
      + if moves[n].Happens? && Ou.Late(Live(cfg, s, moves[..n]), moves[n].e, key) then 1 else 0
  }

  /** In every life, for every key: the collections started are those in flight, those with a SUCCESS row,
      those with a FAILED row, those that ended silently and those a restart dropped without a row; only
      completions that threw behind their row count twice. */
  lemma {:induction false} LivesConserveOutcomes(cfg: DH.Config, s: DH.State, moves: seq<Move>, key: string)
    requires Ou.Keyed(s) && Ou.Balance(s, key) == 0
    ensures var now := Live(cfg, s, moves);
            && Ou.Keyed(now)
            && Ou.StartCount(now.journal, key) + LateMoves(cfg, s, moves, key)
            == Ou.InFlight(now, key) + Ou.Succeeded(now.rows, key) + Ou.FailedAfterStart(now.rows, key)
               + Ou.SilentCount(now.journal, key) + Dropped(cfg, s, moves, key)
  {
    hide DH.Step, Ou.Late, Ou.Succeeded, Ou.FailedAfterStart, Ou.StartCount, Ou.SilentCount;
    if moves != [] {
      var n := |moves| - 1;
      LivesConserveOutcomes(cfg, s, moves[..n], key);
      if moves[n].Happens? {
        Ou.StepBalance(cfg, Live(cfg, s, moves[..n]), moves[n].e, key);
      }
    }
  }

  /** A restart forgets the successes before it: the next report starts a collection, debounced or not. */
  lemma RestartForgetsSuccesses(cfg: DH.Config, s: DH.State, dir: string, index: map<string, Queue>, p: DH.Profile,
                                r: DH.ReportInput)
    ensures Db.Starts(cfg, Restart(s, dir, index), p, r) <==> r.matched.Matched? && r.accepts && r.dirMade && r.fd >= 0
  {
    hide DH.MakeKey, DH.WindowOf;
  }

  // ---------------------------------------------------------------- the clock

  /** The clock reads of a move lie between from and to, and the timer of a collection first ticks a
      second or more after its start. */
  ghost predicate OnClock(s: DH.State, m: Move, from: int, to: int) {
    match m
    case Happens(e) =>
      Db.Within(e, from, to) && (e.Ticked? && e.key in s.inFlight ==> s.inFlight[e.key].ts < from)
    case Restarts(dir, tree, index) => from <= to
  }

  /** A clock that never goes back: clock[i] is its reading before move i. */
  ghost predicate Clocked(cfg: DH.Config, s: DH.State, moves: seq<Move>, clock: seq<int>) {
    && |clock| == |moves| + 1
    && forall i :: 0 <= i < |moves| ==> OnClock(Live(cfg, s, moves[..i]), moves[i], clock[i], clock[i + 1])
  }

  lemma ClockedPrefix(cfg: DH.Config, s: DH.State, moves: seq<Move>, clock: seq<int>)
    requires Clocked(cfg, s, moves, clock) && moves != []
    ensures var n := |moves| - 1;
            && Clocked(cfg, s, moves[..n], clock[..n + 1])
            && OnClock(Live(cfg, s, moves[..n]), moves[n], clock[n], clock[n + 1])
  {
    hide Live, OnClock;
    var n := |moves| - 1;
    forall i | 0 <= i < n
      ensures OnClock(Live(cfg, s, moves[..n][..i]), moves[..n][i], clock[..n + 1][i], clock[..n + 1][i + 1])
    {
      assert moves[..n][..i] == moves[..i];
    }
  }

  /** The store calls of a move, and of a life. */
  function AttemptOf(cfg: DH.Config, s: DH.State, m: Move): seq<Attempt> {
    if m.Happens? then AttemptIn(cfg, s, m.e) else []
  }

  function AttemptsOf(cfg: DH.Config, s: DH.State, moves: seq<Move>): seq<Attempt> {
    if moves == [] then []
    else
      var n := |moves| - 1;
      AttemptsOf(cfg, s, moves[..n]) + AttemptOf(cfg, Live(cfg, s, moves[..n]), moves[n])
  }

  function KeyFor(a: Attempt): string {
    DH.MakeKey(a.profile.name, a.component)
  }

  /** The store calls lie before now, and those of one device before its collection in flight. */
  ghost predicate Behind(s: DH.State, attempts: seq<Attempt>, now: int) {
    forall i :: 0 <= i < |attempts| ==>
      && attempts[i].ts < now
      && (KeyFor(attempts[i]) in s.inFlight ==> attempts[i].ts < s.inFlight[KeyFor(attempts[i])].ts)
  }

  /** Each device's dumps have increasing times. */
  ghost predicate Increasing(attempts: seq<Attempt>) {
    forall i, j :: 0 <= i < j < |attempts| && KeyFor(attempts[i]) == KeyFor(attempts[j]) ==>
      attempts[i].ts < attempts[j].ts
  }

  lemma IncreasingDistinct(attempts: seq<Attempt>)
    requires Increasing(attempts)
    ensures DistinctStores(attempts)
  {
    hide DH.MakeKey;
  }

  lemma StoreEnds(cfg: DH.Config, s: DH.State, key: string, input: DH.TickInput)
    requires AttemptIn(cfg, s, DH.Ticked(key, input)) != []
    ensures key in s.inFlight && key !in DH.Tick(cfg, s, key, input).inFlight
    ensures var ctx, a := s.inFlight[key], AttemptIn(cfg, s, DH.Ticked(key, input));
            |a| == 1 && a[0].profile == ctx.profile.dump && a[0].component == ctx.component && a[0].ts == ctx.ts
            && a[0].dir == s.dir
  {
    hide DH.Poll;
    var ctx := s.inFlight[key];
    var polled := ctx.(elapsed := ctx.elapsed + 1);
    DoneMoves(cfg, DH.WithContext(s, key, polled), key, input.poll.completion, input.at);
  }

  lemma TickBehind(cfg: DH.Config, sections: seq<Section>, s: DH.State, key: string, input: DH.TickInput,
                   attempts: seq<Attempt>,
                   from: int, to: int)
    requires Sane(cfg, sections, s) && Behind(s, attempts, from) && Increasing(attempts)
    requires OnClock(s, Happens(DH.Ticked(key, input)), from, to)
    ensures var all := attempts + AttemptIn(cfg, s, DH.Ticked(key, input));
            Behind(DH.Tick(cfg, s, key, input), all, to) && Increasing(all)
  {
    hide NoTempsQueued, HasTemp, IsName, Serves, DH.Tick, AttemptIn, Spares, EndPaths, Behind, Increasing, DH.MakeKey;
    var t, added := DH.Tick(cfg, s, key, input), AttemptIn(cfg, s, DH.Ticked(key, input));
    assert attempts + [] == attempts;
    if key in s.inFlight {
      TickMoves(cfg, s, key, input);
      if added != [] {
        StoreEnds(cfg, s, key, input);
        assert Owner(cfg, sections, key, s.inFlight[key]);
        assert added == [added[0]];
        EndedBehind(s, t, key, added[0], attempts, from, to);
      } else {
        if key in t.inFlight {
          SameTempPath(s.inFlight[key], t.inFlight[key]);
        }
        SameTimesBehind(s, t, attempts, from, to);
      }
    } else {
      NoTick(cfg, s, key, input);
      NoAttempt(cfg, s, key, input);
      SameTimesBehind(s, t, attempts, from, to);
    }
  }

  lemma EndedBehind(s: DH.State, t: DH.State, key: string, a: Attempt, attempts: seq<Attempt>, from: int, to: int)
    requires Behind(s, attempts, from) && Increasing(attempts) && from <= to && key in s.inFlight
    requires t.inFlight == s.inFlight - {key} && KeyFor(a) == key && a.ts == s.inFlight[key].ts < from
    ensures Behind(t, attempts + [a], to) && Increasing(attempts + [a])
  {
    hide KeyFor;
  }

  lemma SameTimesBehind(s: DH.State, t: DH.State, attempts: seq<Attempt>, from: int, to: int)
    requires Behind(s, attempts, from) && from <= to
    requires forall k :: k in t.inFlight ==> k in s.inFlight && t.inFlight[k].ts == s.inFlight[k].ts
    ensures Behind(t, attempts, to)
  {
    hide KeyFor;
  }

  lemma NoAttempt(cfg: DH.Config, s: DH.State, key: string, input: DH.TickInput)
    requires key !in s.inFlight
    ensures AttemptIn(cfg, s, DH.Ticked(key, input)) == []
  {
  }

  lemma ReportBehind(cfg: DH.Config, s: DH.State, p: DH.Profile, r: DH.ReportInput, attempts: seq<Attempt>, from: int)
    requires Behind(s, attempts, from) && from <= r.startAt
    ensures Behind(DH.Report(cfg, s, p, r), attempts, from)
  {
    hide NoTempsQueued, DH.Report, DH.MakeKey, Spares, FileName, FileIn, TempPath;
    ReportBegins(cfg, s, p, r);
  }

  lemma {:induction false} ReportAllBehind(cfg: DH.Config, s: DH.State, inputs: seq<DH.ReportInput>, n: nat,
                                           attempts: seq<Attempt>, from: int)
    requires Behind(s, attempts, from) && n <= |inputs| && n <= |cfg.profiles|
    requires forall i :: 0 <= i < n ==> from <= inputs[i].startAt
    ensures Behind(DH.ReportAll(cfg, s, inputs, n), attempts, from)
  {
    hide DH.Report, Behind;
    if n > 0 {
      ReportAllBehind(cfg, s, inputs, n - 1, attempts, from);
      ReportBehind(cfg, DH.ReportAll(cfg, s, inputs, n - 1), cfg.profiles[n - 1], inputs[n - 1], attempts, from);
    }
  }

  lemma LaterBehind(s: DH.State, t: DH.State, attempts: seq<Attempt>, from: int, to: int)
    requires Behind(s, attempts, from) && from <= to && (t.inFlight == s.inFlight || t.inFlight == map[])
    ensures Behind(t, attempts, to)
  {
    hide DH.MakeKey;
  }

  lemma MoveBehind(cfg: DH.Config, sections: seq<Section>, s: DH.State, m: Move, attempts: seq<Attempt>, from: int,
                   to: int)
    requires Sane(cfg, sections, s) && Behind(s, attempts, from) && Increasing(attempts) && OnClock(s, m, from, to)
    ensures var all := attempts + AttemptOf(cfg, s, m); Behind(Do(cfg, s, m), all, to) && Increasing(all)
  {
    hide Sane, DH.ReportAll, DH.Tick, Behind, Increasing, DH.Severe;
    assert attempts + [] == attempts;
    match m
    case Happens(e) =>
      match e {
        case Reported(severity, inputs) =>
          if |inputs| == |cfg.profiles| {
            ReportAllBehind(cfg, s, inputs, |inputs|, attempts, from);
          }
          LaterBehind(Do(cfg, s, m), Do(cfg, s, m), attempts, from, to);
        case Ticked(key, input) =>
          TickBehind(cfg, sections, s, key, input, attempts, from, to);
        case Rotated(dir) =>
          LaterBehind(s, Do(cfg, s, m), attempts, from, to);
      }
    case Restarts(dir, tree, index) =>
      LaterBehind(s, Do(cfg, s, m), attempts, from, to);
  }

  lemma MoveAllows(cfg: DH.Config, sections: seq<Section>, s: DH.State, m: Move)
    requires Sane(cfg, sections, s)
    ensures AllAllowed(Dumps(cfg), sections, AttemptOf(cfg, s, m))
  {
    hide NoTempsQueued, HasTemp, IsName, Serves, FileName, DH.MakeKey, AttemptIn, Dumps;
    if AttemptOf(cfg, s, m) != [] {
      OnlyTicksStore(cfg, s, m.e);
      StoreEnds(cfg, s, m.e.key, m.e.input);
      assert Owner(cfg, sections, m.e.key, s.inFlight[m.e.key]);
    }
  }

  lemma OnlyTicksStore(cfg: DH.Config, s: DH.State, e: DH.Event)
    requires AttemptIn(cfg, s, e) != []
    ensures e.Ticked? && e == DH.Ticked(e.key, e.input)
  {
  }

  // ---------------------------------------------------------------- index and disk over lives

  /** The store is in step with the disk and with every store call so far. */
  ghost predicate KeepsUp(cfg: DH.Config, sections: seq<Section>, s: DH.State, attempts: seq<Attempt>) {
    && Carried(cfg.base, Dumps(cfg), sections, s.store, attempts)
    && AllAllowed(Dumps(cfg), sections, attempts) && Increasing(attempts)
  }

  lemma EventKeepsUp(cfg: DH.Config, sections: seq<Section>, s: DH.State, e: DH.Event, attempts: seq<Attempt>)
    requires Rules(cfg, sections) && Sane(cfg, sections, s)
    requires Carried(cfg.base, Dumps(cfg), sections, s.store, attempts)
    requires var all := attempts + AttemptIn(cfg, s, e); AllAllowed(Dumps(cfg), sections, all) && DistinctStores(all)
    ensures Carried(cfg.base, Dumps(cfg), sections, DH.Step(cfg, s, e).store, attempts + AttemptIn(cfg, s, e))
  {
    hide DH.Step, AttemptIn, Tracks, Platform, PlainNames, AllAllowed, DistinctStores, OnlyOurs, QueueOf, Dumps,
      Successes, WellFormed,
      AttemptAll, Agree, NoTemps;
    var added := AttemptIn(cfg, s, e);
    var all, n := attempts + added, |attempts|;
    var now, alone := DH.Step(cfg, s, e).store, AttemptAll(cfg.base, s.store, added);
    assert all[..n] == attempts && all[n..] == added;
    SaneIsNamed(cfg, sections, s);
    SameAsItself(cfg, sections, s);
    StepStore(cfg, s, e, s.store);
    AttemptsKeepTracks(cfg.base, s.store, Dumps(cfg), sections, all, n);
    FilesStayOurs(cfg.base, s.store, Dumps(cfg), sections, all, n);
    ServedProfiles(Dumps(cfg), sections, all, n);
    ForeignQueuesStay(cfg.base, Dumps(cfg), s.store, added);
    SuccessesWellFormed(cfg.base, Dumps(cfg), sections, all);
    SimilarInStep(now, alone, Successes(cfg.base, all), 0);
    SimilarOurs(cfg.base, Dumps(cfg), sections, now, alone, Successes(cfg.base, all));
  }

  lemma SameAsItself(cfg: DH.Config, sections: seq<Section>, s: DH.State)
    requires Sane(cfg, sections, s)
    ensures Similar(s.store, s.store)
  {
    hide NoTemps, Owner, HasTemp, IsName;
  }

  lemma RestartKeepsUp(cfg: DH.Config, sections: seq<Section>, s: DH.State, m: Move, attempts: seq<Attempt>)
    requires Rules(cfg, sections) && m.Restarts? && Plays(cfg, sections, s, m)
    requires Carried(cfg.base, Dumps(cfg), sections, s.store, attempts)
    requires AllAllowed(Dumps(cfg), sections, attempts) && DistinctStores(attempts)
    ensures Carried(cfg.base, Dumps(cfg), sections, Do(cfg, s, m).store, attempts)
  {
    hide Tracks, Platform, PlainNames, AllAllowed, DistinctStores, OnlyOurs, QueueOf, Dumps, Successes, Walks,
      DumpStore.Rebuilt;
    RestartKeepsTracks(cfg.base, Dumps(cfg), sections, m.tree, s.store, attempts, Contents(m.index, s.store.files));
  }

  lemma MoveKeepsUp(cfg: DH.Config, sections: seq<Section>, s: DH.State, m: Move, attempts: seq<Attempt>, from: int,
                    to: int)
    requires Rules(cfg, sections) && Sane(cfg, sections, s) && Plays(cfg, sections, s, m)
    requires KeepsUp(cfg, sections, s, attempts) && Behind(s, attempts, from) && OnClock(s, m, from, to)
    ensures var all, now := attempts + AttemptOf(cfg, s, m), Do(cfg, s, m);
            Sane(cfg, sections, now) && KeepsUp(cfg, sections, now, all) && Behind(now, all, to)
  {
    hide Rules, Sane, Plays, Carried, Behind, Increasing, OnClock, DH.Step, AttemptIn, Allowed, Dumps;
    var added := AttemptOf(cfg, s, m);
    MoveSane(cfg, sections, s, m);
    MoveBehind(cfg, sections, s, m, attempts, from, to);
    MoveAllows(cfg, sections, s, m);
    AllowedTogether(Dumps(cfg), sections, attempts, added);
    IncreasingDistinct(attempts + added);
    if m.Happens? {
      EventKeepsUp(cfg, sections, s, m.e, attempts);
    } else {
      assert attempts + added == attempts;
      RestartKeepsUp(cfg, sections, s, m, attempts);
    }
  }

  lemma AllowedTogether(profiles: seq<DumpProfile>, sections: seq<Section>, a: seq<Attempt>, b: seq<Attempt>)
    requires AllAllowed(profiles, sections, a) && AllAllowed(profiles, sections, b)
    ensures AllAllowed(profiles, sections, a + b)
  {
    hide Allowed;
  }

  /** The daemon before its first boot: nothing queued, no dump of these profiles on disk. */
  ghost predicate Blank(cfg: DH.Config, sections: seq<Section>, s: DH.State) {
    && IsName(s.dir) && s.inFlight == map[] && s.store.index == map[]
    && OnlyOurs(cfg.base, Dumps(cfg), sections, s.store.files, [])
  }

  lemma BlankKeepsUp(cfg: DH.Config, sections: seq<Section>, s: DH.State, now: int)
    requires Blank(cfg, sections, s)
    ensures Sane(cfg, sections, s) && KeepsUp(cfg, sections, s, []) && Behind(s, [], now)
  {
    hide OnlyOurs;
    StartIsCarried(cfg.base, Dumps(cfg), sections, s.store);
  }

  /** Over every life with a clock that does not go back, restarts at any point and collections in flight
      at them: index and disk are in step with every dump ever stored; none is lost, invented or indexed
      twice, and each device's dumps carry increasing times. */
  lemma {:induction false} LivesKeepUp(cfg: DH.Config, sections: seq<Section>, s: DH.State, moves: seq<Move>,
                                       clock: seq<int>)
    requires Rules(cfg, sections) && Blank(cfg, sections, s)
    requires Plausible(cfg, sections, s, moves) && Clocked(cfg, s, moves, clock)
    ensures var now, all := Live(cfg, s, moves), AttemptsOf(cfg, s, moves);
            Sane(cfg, sections, now) && KeepsUp(cfg, sections, now, all) && Behind(now, all, clock[|moves|])
  {
    hide Rules, Sane, Plays, KeepsUp, Behind, OnClock, Do, AttemptOf, Blank;
    if moves == [] {
      BlankKeepsUp(cfg, sections, s, clock[0]);
    } else {
      var n := |moves| - 1;
      PlausiblePrefix(cfg, sections, s, moves);
      ClockedPrefix(cfg, s, moves, clock);
      LivesKeepUp(cfg, sections, s, moves[..n], clock[..n + 1]);
      MoveKeepsUp(cfg, sections, Live(cfg, s, moves[..n]), moves[n], AttemptsOf(cfg, s, moves[..n]), clock[n],
                  clock[n + 1]);
    }
  }

  // ---------------------------------------------------------------- the run after a life

  function Callbacks(events: seq<DH.Event>): seq<Move> {
    seq(|events|, i requires 0 <= i < |events| => Happens(events[i]))
  }

  lemma {:induction false} LifeThenRun(cfg: DH.Config, s: DH.State, moves: seq<Move>, events: seq<DH.Event>)
    ensures Live(cfg, s, moves + Callbacks(events)) == DH.Run(cfg, Live(cfg, s, moves), events)
    ensures AttemptsOf(cfg, s, moves + Callbacks(events))
         == AttemptsOf(cfg, s, moves) + AttemptsIn(cfg, Live(cfg, s, moves), events)
    decreases |events|
  {
    hide DH.Step, AttemptIn, Live, AttemptsOf;
    if events == [] {
      assert moves + Callbacks(events) == moves && AttemptsOf(cfg, s, moves) + [] == AttemptsOf(cfg, s, moves);
    } else {
      var n := |events| - 1;
      var earlier := moves + Callbacks(events[..n]);
      LifeThenRun(cfg, s, moves, events[..n]);
      assert moves + Callbacks(events) == earlier + [Happens(events[n])];
      LifeOneMore(cfg, s, earlier, events[n]);
    }
  }

  lemma LifeOneMore(cfg: DH.Config, s: DH.State, moves: seq<Move>, e: DH.Event)
    ensures Live(cfg, s, moves + [Happens(e)]) == DH.Step(cfg, Live(cfg, s, moves), e)
    ensures AttemptsOf(cfg, s, moves + [Happens(e)])
         == AttemptsOf(cfg, s, moves) + AttemptIn(cfg, Live(cfg, s, moves), e)
  {
    hide DH.Step, AttemptIn;
    assert (moves + [Happens(e)])[..|moves|] == moves;
  }

  /** After every such life, right after a restart, and any run from there: each queue stored to is the
      longest suffix of its dumps within the budget, those the restart found included, and exactly the
      queued dumps are on disk. */
  lemma LifeKeepsLongestSuffix(cfg: DH.Config, sections: seq<Section>, s: DH.State, moves: seq<Move>,
                               events: seq<DH.Event>,
                               clock: seq<int>) returns (past: seq<StoreStep>)
    requires Rules(cfg, sections) && Blank(cfg, sections, s) && Live(cfg, s, moves).inFlight == map[]
    requires var all := moves + Callbacks(events); Plausible(cfg, sections, s, all) && Clocked(cfg, s, all, clock)
    ensures var boot := Live(cfg, s, moves);
            && Describes(boot.store, past)
            && InStep(DH.Run(cfg, boot, events).store, past + Successes(cfg.base, AttemptsIn(cfg, boot, events)),
                      |past|)
  {
    hide Live, DH.Run, AttemptsIn, AttemptsOf, InStep, Describes, Successes, Plays, OnClock, Blank, Carried,
      AllAllowed, Increasing,
      DistinctStores, Platform, PlainNames, Sane, Behind;
    var all := moves + Callbacks(events);
    LifeThenRun(cfg, s, moves, events);
    LivesKeepUp(cfg, sections, s, all, clock);
    IncreasingDistinct(AttemptsOf(cfg, s, all));
    StartOfLife(cfg, sections, s, moves, Callbacks(events), clock);
    LivesKeepUp(cfg, sections, s, moves, clock[..|moves| + 1]);
    past := HandlerKeepsLongestSuffix(cfg, sections, Live(cfg, s, moves), AttemptsOf(cfg, s, moves), events);
  }

  lemma StartOfLife(cfg: DH.Config, sections: seq<Section>, s: DH.State, moves: seq<Move>, later: seq<Move>,
                    clock: seq<int>)
    requires Plausible(cfg, sections, s, moves + later) && Clocked(cfg, s, moves + later, clock)
    ensures Plausible(cfg, sections, s, moves) && Clocked(cfg, s, moves, clock[..|moves| + 1])
  {
    hide Live, Plays, OnClock;
    var all := moves + later;
    forall i | 0 <= i < |moves|
      ensures Plays(cfg, sections, Live(cfg, s, moves[..i]), moves[i])
      ensures OnClock(Live(cfg, s, moves[..i]), moves[i], clock[..|moves| + 1][i], clock[..|moves| + 1][i + 1])
    {
      assert all[..i] == moves[..i] && all[i] == moves[i];
    }
  }
}

/** What the two outcome files say about the collections of a run. */
module DumpOutcomes {
  import opened DumpPaths
  import opened DumpStore
  import opened DumpHandler

  function KeyOf(r: Row): string {
    MakeKey(r.profile, r.component)
  }

  /** The row of a report turned away before any collection was started. */
  predicate TurnedAway(r: Row) {
    r.stage == "DiskSpaceCheck" && r.detail == PRE_CHECK
  }

  function Succeeded(rows: seq<Row>, key: string): nat {
    if rows == [] then 0
    else
      var r := rows[|rows| - 1];
      Succeeded(rows[..|rows| - 1], key) + if r.status.SUCCESS? && KeyOf(r) == key then 1 else 0
  }

  function FailedAfterStart(rows: seq<Row>, key: string): nat {
    if rows == [] then 0
    else
      var r := rows[|rows| - 1];
      FailedAfterStart(rows[..|rows| - 1], key) + if r.status.FAILED? && KeyOf(r) == key && !TurnedAway(r) then 1 else 0
  }

  function StartCount(journal: seq<Note>, key: string): nat {
    if journal == [] then 0
    else
      var n := journal[|journal| - 1];
      StartCount(journal[..|journal| - 1], key) + if n.Started? && n.key == key then 1 else 0
  }

  function SilentCount(journal: seq<Note>, key: string): nat {
    if journal == [] then 0
    else
      var n := journal[|journal| - 1];
      SilentCount(journal[..|journal| - 1], key) + if n.EndedSilently? && n.key == key then 1 else 0
  }

  function InFlight(s: State, key: string): nat {
    if key in s.inFlight then 1 else 0
  }

  /** Collections accounted for, less collections started. */
  function Balance(s: State, key: string): int {
    InFlight(s, key) + Succeeded(s.rows, key) + FailedAfterStart(s.rows, key) + SilentCount(s.journal, key)
    - StartCount(s.journal, key)
  }

  /** Contexts are kept under their own key. */
  ghost predicate Keyed(s: State) {
    forall k :: k in s.inFlight ==> MakeKey(s.inFlight[k].profile.dump.name, s.inFlight[k].component) == k
  }

  /** An exception between the SUCCESS row and the end of the completion: the row is there and the
      poll reports a failure on top of it. */
  predicate Late(s: State, e: Event, key: string) {
    && e.Ticked? && e.key == key && key in s.inFlight && s.inFlight[key].phase.PollingStatus? && e.input.poll.Done?
    && LateCompletion(e.input.poll.completion)
  }

  predicate LateCompletion(c: Completion) {
    c.read.Bytes? && c.read.size > 0 && c.accepts && c.write.Written? && c.fault.AfterRow?
  }

  function LateCount(cfg: Config, s: State, events: seq<Event>, key: string): nat {
    if events == [] then 0
    else
      var n := |events| - 1;
      LateCount(cfg, s, events[..n], key) + if Late(Run(cfg, s, events[..n]), events[n], key) then 1 else 0
  }

  // ---------------------------------------------------------------- counting one more

  lemma RowAdded(rows: seq<Row>, r: Row, key: string)
    ensures Succeeded(rows + [r], key) == Succeeded(rows, key) + if r.status.SUCCESS? && KeyOf(r) == key then 1 else 0
    ensures FailedAfterStart(rows + [r], key)
         == FailedAfterStart(rows, key) + if r.status.FAILED? && KeyOf(r) == key && !TurnedAway(r) then 1 else 0
  {
    assert (rows + [r])[..|rows|] == rows;
  }

  lemma NoteAdded(journal: seq<Note>, n: Note, key: string)
    ensures StartCount(journal + [n], key) == StartCount(journal, key) + if n.Started? && n.key == key then 1 else 0
    ensures SilentCount(journal + [n], key)
         == SilentCount(journal, key) + if n.EndedSilently? && n.key == key then 1 else 0
  {
    assert (journal + [n])[..|journal|] == journal;
  }

  // ---------------------------------------------------------------- the steps

  lemma FailBalance(s: State, ctx: Context, stage: string, detail: string, attempts: nat, at: int, key: string)
    requires stage != "DiskSpaceCheck" || detail == POST_CHECK
    ensures var own := MakeKey(ctx.profile.dump.name, ctx.component);
            Balance(FailContext(s, ctx, stage, detail, attempts, at), key)
            == Balance(s, key) + if own == key then 1 else 0
  {
    assert |PRE_CHECK| != |POST_CHECK|;
    RowAdded(s.rows, Row(FAILED, ctx.profile.dump.name, ctx.component, ctx.code, at, at, "", 0, attempts, stage,
             detail), key);
  }

  lemma CleanupBalance(s: State, k: string, key: string)
    ensures Balance(Cleanup(s, k), key) == Balance(s, key) - if k == key then InFlight(s, k) else 0
    ensures Keyed(s) ==> Keyed(Cleanup(s, k))
  {
    hide Succeeded, FailedAfterStart, StartCount, SilentCount;
  }

  lemma CallDiagBalance(s: State, k: string, reply: DiagReply, at: int, key: string)
    requires Keyed(s)
    ensures Balance(CallDiag(s, k, reply, at), key) == Balance(s, key) && Keyed(CallDiag(s, k, reply, at))
  {
    hide Cleanup, FailContext, Retries, Backoff, Succeeded, FailedAfterStart, StartCount, SilentCount;
    if k in s.inFlight && !reply.Accepted? {
      var ctx := s.inFlight[k].(attempt := s.inFlight[k].attempt + 1);
      var s1 := WithContext(s, k, ctx);
      FailBalance(s1, ctx, "GetDiagnostics", reply.what, ctx.attempt, at, key);
      FailKeepsContexts(s1, ctx, "GetDiagnostics", reply.what, ctx.attempt, at);
      CleanupBalance(FailContext(s1, ctx, "GetDiagnostics", reply.what, ctx.attempt, at), k, key);
    }
  }

  lemma FailKeepsContexts(s: State, ctx: Context, stage: string, detail: string, attempts: nat, at: int)
    ensures FailContext(s, ctx, stage, detail, attempts, at).inFlight == s.inFlight
  {
  }

  /** A completion accounts for its collection exactly once, unless it throws before it has
      written a row. */
  lemma CompleteBalance(cfg: Config, s: State, ctx: Context, c: Completion, key: string)
    ensures var (s1, threw) := Complete(cfg, s, ctx, c); var own := MakeKey(ctx.profile.dump.name, ctx.component);
            && s1.inFlight == s.inFlight
            && Balance(s1, key) == Balance(s, key) + (if own == key && (!threw || LateCompletion(c)) then 1 else 0)
            && (LateCompletion(c) ==> threw)
  {
    hide Stored, FileOf, FailContext, RelativeTo, Succeeded, FailedAfterStart, StartCount, SilentCount;
    var own := MakeKey(ctx.profile.dump.name, ctx.component);
    NoteAdded(s.journal, EndedSilently(own), key);
    FailBalance(s, ctx, "DiskSpaceCheck", POST_CHECK, 0, c.failedAt, key);
    FailKeepsContexts(s, ctx, "DiskSpaceCheck", POST_CHECK, 0, c.failedAt);
    var s1 := s.(store := Stored(s.store, ctx.profile.dump, FileOf(cfg, s.dir, ctx), ctx.ts, c.write, {}));
    FailBalance(s1, ctx, "StoreWriteFailed", STORE_FAILED, 0, c.failedAt, key);
    FailKeepsContexts(s1, ctx, "StoreWriteFailed", STORE_FAILED, 0, c.failedAt);
    if c.read.Bytes? {
      RowAdded(s.rows, SuccessRow(cfg, s.dir, ctx, c), key);
    }
  }

  lemma PollBalance(cfg: Config, s: State, k: string, reply: PollReply, at: int, key: string)
    requires Keyed(s)
    ensures Keyed(Poll(cfg, s, k, reply, at))
    ensures Balance(Poll(cfg, s, k, reply, at), key)
         == Balance(s, key)
            + if k == key && k in s.inFlight && reply.Done? && LateCompletion(reply.completion) then 1 else 0
  {
    hide Complete, Cleanup, FailContext, TimedOut, Succeeded, FailedAfterStart, StartCount, SilentCount, LateCompletion;
    if k in s.inFlight {
      var ctx := s.inFlight[k];
      match reply
      case Done(c) =>
        var closing := ctx.(fd := -1);
        var s0 := WithContext(Close(s, ctx.fd), k, closing);
        CompleteBalance(cfg, s0, closing, c, key);
        var (s1, threw) := Complete(cfg, s0, closing, c);
        FailBalance(s1, ctx, "AsyncStatus", c.what, ctx.attempt, at, key);
        FailKeepsContexts(s1, ctx, "AsyncStatus", c.what, ctx.attempt, at);
        CleanupBalance(if threw then FailContext(s1, ctx, "AsyncStatus", c.what, ctx.attempt, at) else s1, k, key);
      case InProgress =>
        FailedPoll(s, k, TimedOut(ctx.profile.retrieval.timeoutSecs), at, key);
      case OtherStatus(text) =>
        FailedPoll(s, k, text, at, key);
      case Throws(what) =>
        FailedPoll(s, k, what, at, key);
    }
  }

  lemma FailedPoll(s: State, k: string, detail: string, at: int, key: string)
    requires Keyed(s) && k in s.inFlight
    ensures var ctx := s.inFlight[k]; var s1 := Cleanup(FailContext(s, ctx, "AsyncStatus", detail, ctx.attempt, at), k);
            Balance(s1, key) == Balance(s, key) && Keyed(s1)
  {
    hide Cleanup, FailContext, Succeeded, FailedAfterStart, StartCount, SilentCount;
    var ctx := s.inFlight[k];
    FailBalance(s, ctx, "AsyncStatus", detail, ctx.attempt, at, key);
    FailKeepsContexts(s, ctx, "AsyncStatus", detail, ctx.attempt, at);
    CleanupBalance(FailContext(s, ctx, "AsyncStatus", detail, ctx.attempt, at), k, key);
  }

  lemma TickBalance(cfg: Config, s: State, k: string, input: TickInput, key: string)
    requires Keyed(s)
    ensures Keyed(Tick(cfg, s, k, input))
    ensures Balance(Tick(cfg, s, k, input), key) == Balance(s, key) + if Late(s, Ticked(k, input), key) then 1 else 0
  {
    hide CallDiag, Poll, LateCompletion, Succeeded, FailedAfterStart, StartCount, SilentCount;
    if k in s.inFlight {
      var ctx := s.inFlight[k];
      if ctx.phase.RetryWaiting? {
        CallDiagBalance(WithContext(s, k, ctx.(wait := ctx.wait - 1)), k, input.diag, input.at, key);
      } else if ctx.phase.PollingStatus? {
        PollBalance(cfg, WithContext(s, k, ctx.(elapsed := ctx.elapsed + 1)), k, input.poll, input.at, key);
      }
    }
  }

  lemma ReportBalance(cfg: Config, s: State, p: Profile, r: ReportInput, key: string)
    requires Keyed(s)
    ensures Keyed(Report(cfg, s, p, r)) && Balance(Report(cfg, s, p, r), key) == Balance(s, key)
  {
    hide CallDiag, MayStart, Succeeded, FailedAfterStart, StartCount, SilentCount, MakeKey, FileName;
    if r.matched.Matched? {
      var component := r.matched.component;
      RowAdded(s.rows, Row(FAILED, p.dump.name, component, r.matched.code, r.failedAt, r.failedAt, "", 0, 0,
                           "DiskSpaceCheck", PRE_CHECK), key);
      var own := MakeKey(p.dump.name, component);
      NoteAdded(s.journal, Started(own, r.startAt), key);
      if own !in s.inFlight {
        CallDiagBalance(Opened(cfg, s, p, component, r.matched.code, r), own, r.diag, r.failedAt, key);
      }
    }
  }

  lemma {:induction false} ReportAllBalance(cfg: Config, s: State, inputs: seq<ReportInput>, n: nat, key: string)
    requires Keyed(s) && n <= |inputs| && n <= |cfg.profiles|
    ensures Keyed(ReportAll(cfg, s, inputs, n)) && Balance(ReportAll(cfg, s, inputs, n), key) == Balance(s, key)
  {
    hide Report, Balance, Keyed;
    if n > 0 {
      ReportAllBalance(cfg, s, inputs, n - 1, key);
      ReportBalance(cfg, ReportAll(cfg, s, inputs, n - 1), cfg.profiles[n - 1], inputs[n - 1], key);
    }
  }

  lemma RotatedBalance(s: State, dir: string, key: string)
    ensures Balance(s.(dir := dir), key) == Balance(s, key) && (Keyed(s) ==> Keyed(s.(dir := dir)))
  {
  }

  lemma StepBalance(cfg: Config, s: State, e: Event, key: string)
    requires Keyed(s)
    ensures Keyed(Step(cfg, s, e))
    ensures Balance(Step(cfg, s, e), key) == Balance(s, key) + if Late(s, e, key) then 1 else 0
  {
    hide ReportAll, Tick, Balance, Keyed, Severe, LateCompletion;
    match e
    case Reported(severity, inputs) =>
      if |inputs| == |cfg.profiles| {
        ReportAllBalance(cfg, s, inputs, |inputs|, key);
      }
    case Ticked(k, input) =>
      TickBalance(cfg, s, k, input, key);
    case Rotated(dir) =>
      RotatedBalance(s, dir, key);
  }

  // ---------------------------------------------------------------- conservation

  /** In every reachable state, for every key: the collections started are those in flight, those
      with a SUCCESS row, those with a FAILED row and those that ended silently; only a completion
      that throws behind its SUCCESS row is counted twice. */
  lemma {:induction false} OutcomesConserved(cfg: Config, s: State, events: seq<Event>, key: string)
    requires Keyed(s) && Balance(s, key) == 0
    ensures var now := Run(cfg, s, events);
            && Keyed(now)
            && StartCount(now.journal, key) + LateCount(cfg, s, events, key)
            == InFlight(now, key) + Succeeded(now.rows, key) + FailedAfterStart(now.rows, key)
               + SilentCount(now.journal, key)
  {
    hide Step, Keyed, Late, Succeeded, FailedAfterStart, StartCount, SilentCount;
    if events != [] {
      var n := |events| - 1;
      OutcomesConserved(cfg, s, events[..n], key);
      StepBalance(cfg, Run(cfg, s, events[..n]), events[n], key);
    }
  }

  /** Every started collection is in flight or has exactly one outcome, unless and only unless some
      completion threw behind its row. */
  lemma OneOutcomeEachIff(cfg: Config, s: State, events: seq<Event>, key: string)
    requires Keyed(s) && Balance(s, key) == 0
    ensures Balance(Run(cfg, s, events), key) == 0
       <==> forall i :: 0 <= i < |events| ==> !Late(Run(cfg, s, events[..i]), events[i], key)
  {
    hide Keyed, Late, Run, Succeeded, FailedAfterStart, StartCount, SilentCount;
    OutcomesConserved(cfg, s, events, key);
    LateCountZero(cfg, s, events, key);
  }

  lemma {:induction false} LateCountZero(cfg: Config, s: State, events: seq<Event>, key: string)
    ensures LateCount(cfg, s, events, key) == 0
       <==> forall i :: 0 <= i < |events| ==> !Late(Run(cfg, s, events[..i]), events[i], key)
  {
    hide Late, Run;
    if events != [] {
      var n := |events| - 1;
      LateCountZero(cfg, s, events[..n], key);
      forall i | 0 <= i < n ensures events[..n][..i] == events[..i] && events[..n][i] == events[i] {
      }
      if forall i :: 0 <= i < |events| ==> !Late(Run(cfg, s, events[..i]), events[i], key) {
        forall i | 0 <= i < n ensures !Late(Run(cfg, s, events[..n][..i]), events[..n][i], key) {
          assert events[..n][..i] == events[..i];
        }
      } else if LateCount(cfg, s, events, key) == 0 {
        forall i | 0 <= i < n ensures !Late(Run(cfg, s, events[..i]), events[i], key) {
          assert events[..n][..i] == events[..i] && events[..n][i] == events[i];
          assert !Late(Run(cfg, s, events[..n][..i]), events[..n][i], key);
        }
      }
    }
  }

  // ---------------------------------------------------------------- the two files

  /** The FAILED rows as the failure file tells them. */
  function FailuresIn(rows: seq<Row>): seq<Failure> {
    if rows == [] then []
    else
      var r := rows[|rows| - 1];
      var before := FailuresIn(rows[..|rows| - 1]);
      if r.status.FAILED?
      then before + [Failure(r.completed, r.profile, r.component, r.code, r.stage, r.detail, r.attempts)]
      else before
  }

  lemma FailuresAdded(rows: seq<Row>, r: Row)
    ensures FailuresIn(rows + [r]) == FailuresIn(rows)
              + if r.status.FAILED?
                then [Failure(r.completed, r.profile, r.component, r.code, r.stage, r.detail, r.attempts)]
                else []
  {
    assert (rows + [r])[..|rows|] == rows;
    assert FailuresIn(rows) + [] == FailuresIn(rows);
  }

  ghost predicate FilesAgree(s: State) {
    s.failures == FailuresIn(s.rows)
  }

  lemma FailAgrees(s: State, profile: string, component: string, code: nat, stage: string, detail: string,
                   attempts: nat, at: int)
    requires FilesAgree(s)
    ensures FilesAgree(Fail(s, profile, component, code, stage, detail, attempts, at))
  {
    FailuresAdded(s.rows, Row(FAILED, profile, component, code, at, at, "", 0, attempts, stage, detail));
  }

  lemma FailContextAgrees(s: State, ctx: Context, stage: string, detail: string, attempts: nat, at: int)
    requires FilesAgree(s)
    ensures FilesAgree(FailContext(s, ctx, stage, detail, attempts, at))
  {
    FailAgrees(s, ctx.profile.dump.name, ctx.component, ctx.code, stage, detail, attempts, at);
  }

  lemma CleanupAgrees(s: State, key: string)
    requires FilesAgree(s)
    ensures FilesAgree(Cleanup(s, key))
  {
  }

  lemma CallDiagAgrees(s: State, key: string, reply: DiagReply, at: int)
    requires FilesAgree(s)
    ensures FilesAgree(CallDiag(s, key, reply, at))
  {
    hide Cleanup, FailContext, Retries, Backoff, FailuresIn;
    if key in s.inFlight && !reply.Accepted? {
      var ctx := s.inFlight[key].(attempt := s.inFlight[key].attempt + 1);
      FailContextAgrees(WithContext(s, key, ctx), ctx, "GetDiagnostics", reply.what, ctx.attempt, at);
      CleanupAgrees(FailContext(WithContext(s, key, ctx), ctx, "GetDiagnostics", reply.what, ctx.attempt, at), key);
    }
  }

  lemma CompleteAgrees(cfg: Config, s: State, ctx: Context, c: Completion)
    requires FilesAgree(s)
    ensures FilesAgree(Complete(cfg, s, ctx, c).0)
  {
    hide Stored, FileOf, FailContext, RelativeTo, FailuresIn;
    var s1 := s.(store := Stored(s.store, ctx.profile.dump, FileOf(cfg, s.dir, ctx), ctx.ts, c.write, {}));
    FailContextAgrees(s, ctx, "DiskSpaceCheck", POST_CHECK, 0, c.failedAt);
    FailContextAgrees(s1, ctx, "StoreWriteFailed", STORE_FAILED, 0, c.failedAt);
    if c.read.Bytes? {
      FailuresAdded(s.rows, SuccessRow(cfg, s.dir, ctx, c));
    }
  }

  lemma FailedPollAgrees(s: State, key: string, ctx: Context, detail: string, at: int)
    requires FilesAgree(s)
    ensures FilesAgree(Cleanup(FailContext(s, ctx, "AsyncStatus", detail, ctx.attempt, at), key))
  {
    hide Cleanup, FailContext, FailuresIn;
    FailContextAgrees(s, ctx, "AsyncStatus", detail, ctx.attempt, at);
    CleanupAgrees(FailContext(s, ctx, "AsyncStatus", detail, ctx.attempt, at), key);
  }

  lemma PollAgrees(cfg: Config, s: State, key: string, reply: PollReply, at: int)
    requires FilesAgree(s)
    ensures FilesAgree(Poll(cfg, s, key, reply, at))
  {
    hide Complete, Cleanup, FailContext, TimedOut, FailuresIn;
    if key in s.inFlight {
      var ctx := s.inFlight[key];
      match reply
      case Done(c) =>
        var closing := ctx.(fd := -1);
        var s0 := WithContext(Close(s, ctx.fd), key, closing);
        CompleteAgrees(cfg, s0, closing, c);
        var s1 := Complete(cfg, s0, closing, c).0;
        FailedPollAgrees(s1, key, ctx, c.what, at);
        CleanupAgrees(s1, key);
      case InProgress =>
        FailedPollAgrees(s, key, ctx, TimedOut(ctx.profile.retrieval.timeoutSecs), at);
      case OtherStatus(text) =>
        FailedPollAgrees(s, key, ctx, text, at);
      case Throws(what) =>
        FailedPollAgrees(s, key, ctx, what, at);
    }
  }

  lemma ReportAgrees(cfg: Config, s: State, p: Profile, r: ReportInput)
    requires FilesAgree(s)
    ensures FilesAgree(Report(cfg, s, p, r))
  {
    hide CallDiag, MayStart, Fail, MakeKey, FileName, FailuresIn;
    if r.matched.Matched? {
      var component := r.matched.component;
      FailAgrees(s, p.dump.name, component, r.matched.code, "DiskSpaceCheck", PRE_CHECK, 0, r.failedAt);
      CallDiagAgrees(Opened(cfg, s, p, component, r.matched.code, r), MakeKey(p.dump.name, component), r.diag,
                     r.failedAt);
    }
  }

  lemma {:induction false} ReportAllAgrees(cfg: Config, s: State, inputs: seq<ReportInput>, n: nat)
    requires FilesAgree(s) && n <= |inputs| && n <= |cfg.profiles|
    ensures FilesAgree(ReportAll(cfg, s, inputs, n))
  {
    hide Report, FilesAgree;
    if n > 0 {
      ReportAllAgrees(cfg, s, inputs, n - 1);
      ReportAgrees(cfg, ReportAll(cfg, s, inputs, n - 1), cfg.profiles[n - 1], inputs[n - 1]);
    }
  }

  lemma StepAgrees(cfg: Config, s: State, e: Event)
    requires FilesAgree(s)
    ensures FilesAgree(Step(cfg, s, e))
  {
    hide ReportAll, CallDiag, Poll, Severe, FailuresIn;
    match e
    case Reported(severity, inputs) =>
      if |inputs| == |cfg.profiles| {
        ReportAllAgrees(cfg, s, inputs, |inputs|);
      }
    case Ticked(key, input) =>
      if key in s.inFlight {
        var ctx := s.inFlight[key];
        CallDiagAgrees(WithContext(s, key, ctx.(wait := ctx.wait - 1)), key, input.diag, input.at);
        PollAgrees(cfg, WithContext(s, key, ctx.(elapsed := ctx.elapsed + 1)), key, input.poll, input.at);
      }
    case Rotated(dir) =>
  }

  /** Over every run the failure file is the FAILED rows of the records file, in order. */
  lemma {:induction false} FailureFileMirrorsRows(cfg: Config, s: State, events: seq<Event>)
    requires s.failures == FailuresIn(s.rows)
    ensures Run(cfg, s, events).failures == FailuresIn(Run(cfg, s, events).rows)
  {
    hide Step, FailuresIn;
    if events != [] {
      var n := |events| - 1;
      FailureFileMirrorsRows(cfg, s, events[..n]);
      StepAgrees(cfg, Run(cfg, s, events[..n]), events[n]);
    }
  }

  // ---------------------------------------------------------------- the row and its file

  /** A recorded path never names the base directory, however that is written. */
  lemma RecordedPath(base: string, dir: string, name: string)
    ensures RelativeTo(base, PathIn(base, dir, name)) == dir + "/" + name
  {
    var path := PathIn(base, dir, name);
    assert path[..|base|] == base;
    assert path[|base|..] == "/" + (dir + "/" + name);
  }

  lemma {:induction false} NewestStaysIff(queue: Queue, e: DumpEntry, files: Files, budget: nat)
    requires e.path in files && forall q :: q in queue ==> q.path != e.path
    ensures e.path in Evict(queue + [e], files, budget, {}).1 <==> files[e.path] <= budget
    decreases |queue|
  {
    var all := queue + [e];
    assert all[..|queue|] == queue;
    if queue == [] {
      assert UsedBytes(all, files) == files[e.path];
      assert all[1..] == [];
      if files[e.path] > budget {
        assert Evict(all, files, budget, {}) == Evict([], files - {e.path}, budget, {});
      }
    } else if UsedBytes(all, files) > budget {
      assert queue[0] in queue && all[0] == queue[0];
      assert all[1..] == queue[1..] + [e];
      NewestStaysIff(queue[1..], e, files - {queue[0].path}, budget);
    }
  }

  /** A SUCCESS row is written for every stored dump, but the file it names is on disk only if
      the dump fits the budget by itself. */
  lemma SuccessRowHasFileIff(cfg: Config, s: State, ctx: Context, c: Completion)
    requires c.read.Bytes? && c.read.size > 0 && c.accepts && c.write.Written? && c.fault.NoFault?
    requires forall q :: q in QueueOf(s.store.index, ctx.profile.dump.name) ==> q.path != FileOf(cfg, s.dir, ctx)
    ensures var now := Complete(cfg, s, ctx, c).0;
            && now.rows == s.rows + [SuccessRow(cfg, s.dir, ctx, c)]
            && (FileOf(cfg, s.dir, ctx) in now.store.files
                <==> c.write.bytes <= BudgetBytes(ctx.profile.dump.storage.budgetMB))
  {
    hide Evict, FileOf, PathOf, RelativeTo, BudgetBytes;
    NewestStaysIff(QueueOf(s.store.index, ctx.profile.dump.name), DumpEntry(FileOf(cfg, s.dir, ctx), ctx.ts),
                   FilesAfterWrite(s.store.files, FileOf(cfg, s.dir, ctx), c.write, {}),
                   BudgetBytes(ctx.profile.dump.storage.budgetMB));
  }
}

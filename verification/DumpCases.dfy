/** The steps of the handler case by case, told by the state before and after alone: which reports
    start a collection, what each reply does to it, and what the outcome files then say. */
module DumpCases {
  import opened Text
  import opened DumpPaths
  import opened DumpStore
  import opened DumpHandler
  import DumpLifetime
  import DumpDebounce
  import DumpOutcomes

  // ---------------------------------------------------------------- keys and files

  /** Profile and component both decide the key, as long as no profile name holds a colon. */
  lemma KeysTellDevices(profile: string, component: string, profile': string, component': string)
    requires ':' !in profile && ':' !in profile'
    ensures MakeKey(profile, component) == MakeKey(profile', component')
       <==> profile == profile' && component == component'
  {
    var key, key' := MakeKey(profile, component), MakeKey(profile', component');
    FirstIndexSkips(profile, ":" + component, ':');
    FirstIndexSkips(profile', ":" + component', ':');
    assert key == profile + (":" + component) && key' == profile' + (":" + component');
    assert key[..|profile|] == profile && key'[..|profile'|] == profile';
    assert key[|profile| + 1..] == component && key'[|profile'| + 1..] == component';
  }

  /** With a colon in a name two devices can share a key. */
  lemma ColonsCollide()
    ensures MakeKey("Gpu:A", "B") == MakeKey("Gpu", "A:B")
  {
    assert MakeKey("Gpu:A", "B") == "Gpu:A:B" == MakeKey("Gpu", "A:B");
  }

  /** The name of the dump file of an event. */
  ghost function DumpName(ctx: Context): string {
    ctx.profile.dump.section + "." + ctx.component + "." + ctx.profile.dump.storage.filePrefix + "_"
    + IntToString(ctx.ts) + ".dat"
  }

  // ---------------------------------------------------------------- what a step adds

  ghost predicate Same(s: State, t: State) {
    && s.rows == t.rows && s.failures == t.failures && s.debounce == t.debounce && s.journal == t.journal
    && s.open == t.open && s.store == t.store
  }

  /** One more failure, in both outcome files, and nothing remembered as a success. */
  ghost predicate OneFailure(s: State, t: State, profile: string, component: string, code: nat, stage: string,
                             detail: string, attempts: nat, at: int) {
    && |t.rows| == |s.rows| + 1 && t.rows[..|s.rows|] == s.rows
    && |t.failures| == |s.failures| + 1 && t.failures[..|s.failures|] == s.failures
    && t.debounce == s.debounce && t.journal == s.journal
    && var r, f := t.rows[|s.rows|], t.failures[|s.failures|];
       && r.status.FAILED? && r.profile == f.profile == profile && r.component == f.component == component
       && r.code == f.code == code && r.stage == f.stage == stage && r.detail == f.detail == detail
       && r.attempts == f.attempts == attempts && r.eventTime == r.completed == f.at == at
       && r.path == "" && r.size == 0
  }

  ghost predicate OneFailureOf(s: State, t: State, ctx: Context, stage: string, detail: string, attempts: nat,
                               at: int) {
    OneFailure(s, t, ctx.profile.dump.name, ctx.component, ctx.code, stage, detail, attempts, at)
  }

  /** Everything else in flight is as before. */
  ghost predicate OthersStay(s: State, t: State, key: string) {
    forall k :: k != key ==>
      (k in t.inFlight <==> k in s.inFlight) && (k in s.inFlight ==> t.inFlight[k] == s.inFlight[k])
  }

  lemma FailedAndGone(s: State, key: string, ctx: Context, stage: string, detail: string, attempts: nat, at: int)
    ensures var t := Cleanup(FailContext(s, ctx, stage, detail, attempts, at), key);
            OneFailureOf(s, t, ctx, stage, detail, attempts, at) && t.inFlight == s.inFlight - {key}
  {
  }

  // ---------------------------------------------------------------- the reply to a call

  lemma SameBooks(s: State, s': State, t: State, ctx: Context, stage: string, detail: string, attempts: nat, at: int)
    requires s.rows == s'.rows && s.failures == s'.failures && s.debounce == s'.debounce && s.journal == s'.journal
    requires OneFailureOf(s', t, ctx, stage, detail, attempts, at)
    ensures OneFailureOf(s, t, ctx, stage, detail, attempts, at)
  {
  }

  /** After a call the collection waits exactly if the reply is a bus error that says Unavailable and the
      call was at most number MaxRetries; it polls exactly if the reply was accepted; otherwise it is
      gone, with one failure that carries the text of the reply and the number of calls. */
  lemma ReplyDecides(s: State, key: string, reply: DiagReply, at: int)
    requires key in s.inFlight
    ensures var t, ctx := CallDiag(s, key, reply, at), s.inFlight[key]; var calls := ctx.attempt + 1;
            && OthersStay(s, t, key)
            && (key in t.inFlight && t.inFlight[key].phase.RetryWaiting?
                <==> reply.BusError? && Occurs(reply.what, "Unavailable") && calls <= ctx.profile.retrieval.maxRetries)
            && (key in t.inFlight && t.inFlight[key].phase.PollingStatus? <==> reply.Accepted?)
            && (key in t.inFlight ==>
                  var now := t.inFlight[key];
                  && Same(s, t) && !now.phase.AwaitingGetDiag? && now.attempt == calls
                  && now == ctx.(attempt := calls, phase := now.phase, wait := now.wait, elapsed := now.elapsed)
                  && (now.phase.RetryWaiting? ==> now.wait == Backoff(ctx.profile.retrieval, calls))
                  && (now.phase.PollingStatus? ==> now.elapsed == 0))
            && (key !in t.inFlight ==>
                  !reply.Accepted? && OneFailureOf(s, t, ctx, "GetDiagnostics", reply.what, calls, at))
  {
    hide Contains, Occurs, Backoff, Cleanup, Fail, FailContext, OneFailure;
    if reply.BusError? {
      ContainsIff(reply.what, "Unavailable");
    }
    if !reply.Accepted? {
      var ctx := s.inFlight[key].(attempt := s.inFlight[key].attempt + 1);
      FailedAndGone(WithContext(s, key, ctx), key, ctx, "GetDiagnostics", reply.what, ctx.attempt, at);
      if !(reply.BusError? && Occurs(reply.what, "Unavailable") && ctx.attempt <= ctx.profile.retrieval.maxRetries) {
        SameBooks(s, WithContext(s, key, ctx), CallDiag(s, key, reply, at), ctx, "GetDiagnostics", reply.what,
                  ctx.attempt, at);
      }
    }
  }

  /** The first wait is the delay in whole seconds, but at least one; every further one is twice the last. */
  lemma WaitsDouble(r: Retrieval, calls: nat)
    requires calls > 0
    ensures var delay := if r.retryDelayMs < 1000 then 1000 else r.retryDelayMs;
            1000 * Backoff(r, 1) <= delay < 1000 * (Backoff(r, 1) + 1)
    ensures Backoff(r, calls + 1) == 2 * Backoff(r, calls)
  {
    assert Pow2(0) == 1 && Pow2(calls) == 2 * Pow2(calls - 1);
    assert BaseSecs(r) * (2 * Pow2(calls - 1)) == 2 * (BaseSecs(r) * Pow2(calls - 1));
  }

  // ---------------------------------------------------------------- a tick

  /** A waiting collection counts down to its next call; a polling one asks for its status. */
  lemma TickDecides(cfg: Config, s: State, key: string, input: TickInput)
    requires key in s.inFlight
    ensures var t, ctx := Tick(cfg, s, key, input), s.inFlight[key];
            && OthersStay(s, t, key)
            && (ctx.phase.RetryWaiting? && ctx.wait > 1 ==>
                  Same(s, t) && key in t.inFlight && t.inFlight[key] == ctx.(wait := ctx.wait - 1))
            && (ctx.phase.RetryWaiting? && ctx.wait <= 1 ==>
                  && (key in t.inFlight ==> t.inFlight[key].attempt == ctx.attempt + 1)
                  && (key !in t.inFlight ==>
                        !input.diag.Accepted?
                        && OneFailureOf(s, t, ctx, "GetDiagnostics", input.diag.what, ctx.attempt + 1, input.at)))
            && (ctx.phase.AwaitingGetDiag? ==> t == s)
            && (ctx.phase.PollingStatus? && key in t.inFlight ==>
                  Same(s, t) && t.inFlight[key] == ctx.(elapsed := ctx.elapsed + 1))
  {
    hide Occurs, Backoff, CallDiag, Poll, OneFailure;
    var t, ctx := Tick(cfg, s, key, input), s.inFlight[key];
    match ctx.phase
    case RetryWaiting =>
      var s1 := WithContext(s, key, ctx.(wait := ctx.wait - 1));
      if ctx.wait <= 1 {
        ReplyDecides(s1, key, input.diag, input.at);
      }
      if key !in t.inFlight {
        SameBooks(s, s1, t, ctx, "GetDiagnostics", input.diag.what, ctx.attempt + 1, input.at);
      }
    case PollingStatus =>
      PollDecides(cfg, WithContext(s, key, ctx.(elapsed := ctx.elapsed + 1)), key, input.poll, input.at);
    case AwaitingGetDiag =>
  }

  /** A poll that finds the operation in progress changes nothing before TimeoutSecs polls have passed.
      All others end the collection, with one failure that carries the text of what was wrong, unless
      the operation was done and its completion did not throw. */
  lemma PollDecides(cfg: Config, s: State, key: string, reply: PollReply, at: int)
    requires key in s.inFlight
    ensures var t, ctx := Poll(cfg, s, key, reply, at), s.inFlight[key];
            && OthersStay(s, t, key)
            && (key in t.inFlight <==> reply.InProgress? && ctx.elapsed < ctx.profile.retrieval.timeoutSecs)
            && (key in t.inFlight ==> t == s)
            && (key !in t.inFlight && reply.InProgress? ==>
                  OneFailureOf(s, t, ctx, "AsyncStatus", "async operation timed out after "
                                                         + IntToString(ctx.profile.retrieval.timeoutSecs) + "s",
                               ctx.attempt, at))
            && (reply.OtherStatus? ==> OneFailureOf(s, t, ctx, "AsyncStatus", reply.text, ctx.attempt, at))
            && (reply.Throws? ==> OneFailureOf(s, t, ctx, "AsyncStatus", reply.what, ctx.attempt, at))
  {
    hide IntToString, Complete, Cleanup, Fail, FailContext, OneFailure;
    var ctx := s.inFlight[key];
    match reply
    case Done(c) =>
      DoneDecides(cfg, s, key, c, at);
    case InProgress =>
      FailedAndGone(s, key, ctx, "AsyncStatus", TimedOut(ctx.profile.retrieval.timeoutSecs), ctx.attempt, at);
    case OtherStatus(text) =>
      FailedAndGone(s, key, ctx, "AsyncStatus", text, ctx.attempt, at);
    case Throws(what) =>
      FailedAndGone(s, key, ctx, "AsyncStatus", what, ctx.attempt, at);
  }

  /** A poll that finds the operation done closes the descriptor, completes the collection and ends it; if
      the completion throws, one failure with the text of the exception is added. */
  lemma DoneDecides(cfg: Config, s: State, key: string, c: Completion, at: int)
    requires key in s.inFlight
    ensures var t, ctx := Poll(cfg, s, key, Done(c), at), s.inFlight[key].(fd := -1);
            var (done, threw) := Complete(cfg, WithContext(Close(s, s.inFlight[key].fd), key, ctx), ctx, c);
            && t.inFlight == s.inFlight - {key} && t.open == s.open - {s.inFlight[key].fd}
            && (threw ==> OneFailureOf(done, t, ctx, "AsyncStatus", c.what, ctx.attempt, at))
            && (!threw ==> t.rows == done.rows && t.failures == done.failures && t.journal == done.journal)
            && t.debounce == done.debounce
  {
    hide Complete;
    var ctx := s.inFlight[key].(fd := -1);
    DumpLifetime.CompleteKeepsContexts(cfg, WithContext(Close(s, s.inFlight[key].fd), key, ctx), ctx, c);
    CompleteKeepsOpen(cfg, WithContext(Close(s, s.inFlight[key].fd), key, ctx), ctx, c);
  }

  lemma CompleteKeepsOpen(cfg: Config, s: State, ctx: Context, c: Completion)
    ensures Complete(cfg, s, ctx, c).0.open == s.open
  {
    hide Stored, FileOf, PathOf, MakeKey;
  }

  // ---------------------------------------------------------------- a completion

  /** The row of a success: whose dump, of which event, and where the file lies below the base path. */
  ghost predicate OneSuccess(s: State, t: State, ctx: Context, c: Completion)
    requires c.read.Bytes?
  {
    && |t.rows| == |s.rows| + 1 && t.rows[..|s.rows|] == s.rows
    && t.failures == s.failures && t.journal == s.journal
    && var r := t.rows[|s.rows|];
       && r.status.SUCCESS? && r.profile == ctx.profile.dump.name && r.component == ctx.component && r.code == ctx.code
       && r.eventTime == ctx.ts && r.completed == c.rowAt && r.size == c.read.size && r.attempts == ctx.attempt
       && r.path == s.dir + "/" + DumpName(ctx) && r.stage == "" && r.detail == ""
  }

  /** A completion that does not throw ends in one of four ways: nothing recorded for a file that is
      empty or cannot be read, a failure for a full partition or for a write that failed, or else a
      success, which is remembered with the time it ended. */
  lemma CompletionDecides(cfg: Config, s: State, ctx: Context, c: Completion)
    ensures var (t, threw) := Complete(cfg, s, ctx, c); var key := MakeKey(ctx.profile.dump.name, ctx.component);
            var readable := c.read.Bytes? && c.read.size > 0;
            && (!readable ==>
                  !threw && t.rows == s.rows && t.failures == s.failures && t.debounce == s.debounce
                  && t.store == s.store && t.journal == s.journal + [EndedSilently(key)])
            && (readable && !c.accepts && !c.fault.BeforeStore? ==>
                  !threw && t.store == s.store
                  && OneFailureOf(s, t, ctx, "DiskSpaceCheck",
                                  "partition rejected post-collection (see journal for detail)", 0, c.failedAt))
            && (readable && c.accepts && !c.fault.BeforeStore? && !c.write.Written? ==>
                  !threw && t.store.index == s.store.index
                  && OneFailureOf(s, t, ctx, "StoreWriteFailed",
                                  "store() returned false (see journal for serialize/rename detail)", 0, c.failedAt))
            && (readable && c.accepts && c.write.Written? && c.fault.NoFault? ==>
                  !threw && OneSuccess(s, t, ctx, c) && t.debounce == s.debounce[key := c.doneAt])
            && (threw ==> t.debounce == s.debounce && t.failures == s.failures && t.journal == s.journal)
            && (threw ==> if c.fault.AfterRow? then readable && OneSuccess(s, t, ctx, c) else t.rows == s.rows)
            && (threw <==>
                  && readable
                  && (c.fault.BeforeStore?
                      || (c.accepts && c.write.Written? && (c.fault.AfterStore? || c.fault.AfterRow?))))
  {
    hide Evict, FileOf, RelativeTo, MakeKey, FilesAfterWrite, IntToString;
    var path := PathOf(cfg, s.dir, ctx);
    RecordedBelowBase(cfg, s.dir, ctx);
  }

  lemma RecordedBelowBase(cfg: Config, dir: string, ctx: Context)
    ensures RelativeTo(cfg.base, PathOf(cfg, dir, ctx)) == dir + "/" + DumpName(ctx)
  {
    hide IntToString;
    DumpOutcomes.RecordedPath(cfg.base, dir, DumpName(ctx));
  }

  // ---------------------------------------------------------------- a report

  /** Profile i is the first of its name. */
  ghost predicate FirstNamed(profiles: seq<Profile>, name: string, i: nat) {
    i < |profiles| && profiles[i].dump.name == name && forall j :: 0 <= j < i ==> profiles[j].dump.name != name
  }

  /** No success of the device is remembered that is less than the window old. */
  ghost predicate Rested(s: State, p: Profile, component: string, now: int) {
    var key := MakeKey(p.dump.name, component);
    p.windowSecs > 0 && key in s.debounce ==> now - s.debounce[key] >= p.windowSecs
  }

  lemma {:induction false} WindowOfFirst(profiles: seq<Profile>, name: string, i: nat)
    requires FirstNamed(profiles, name, i)
    ensures profiles[i].dump.name == name && WindowOf(profiles, name) == profiles[i].windowSecs
  {
    if i > 0 {
      assert profiles[0].dump.name != name;
      assert FirstNamed(profiles[1..], name, i - 1);
      WindowOfFirst(profiles[1..], name, i - 1);
    }
  }

  /** A report of a device starts a collection exactly if its severity holds Critical or Warning, the
      profile matched, the last success of the device is as old as the window of the first profile of
      that name, the partition accepts, none is in flight, and directory and file can be made. */
  lemma ReportStartsIff(cfg: Config, s: State, severity: string, i: nat, first: nat, r: ReportInput)
    requires i < |cfg.profiles| && FirstNamed(cfg.profiles, cfg.profiles[i].dump.name, first)
    requires r.matched.Matched?
    ensures var t := Step(cfg, s, Reported(severity, Only(cfg, i, r)));
            var p, component := cfg.profiles[i], r.matched.component; var key := MakeKey(p.dump.name, component);
            var heard := Occurs(severity, "Critical") || Occurs(severity, "Warning");
            var due := heard && Rested(s, cfg.profiles[first], component, r.checkAt);
            && (due && r.accepts && key !in s.inFlight && r.dirMade && r.fd >= 0 ==>
                  t.journal == s.journal + [Started(key, r.startAt)])
            && (due && !r.accepts ==>
                  OneFailure(s, t, p.dump.name, component, r.matched.code, "DiskSpaceCheck",
                             "partition pre-check rejected (see journal for detail)", 0, r.failedAt)
                  && t.inFlight == s.inFlight && t.store == s.store)
            && (!due || (r.accepts && (key in s.inFlight || !r.dirMade || r.fd < 0)) ==> t == s)
  {
    hide Contains, Occurs, MakeKey, Collect, WindowOf, FirstNamed;
    ContainsIff(severity, "Critical");
    ContainsIff(severity, "Warning");
    OnlyReports(cfg, s, i, r, |cfg.profiles|);
    WindowOfFirst(cfg.profiles, cfg.profiles[i].dump.name, first);
    CollectDecides(cfg, s, cfg.profiles[i], r.matched.component, r.matched.code, r);
  }

  lemma CollectDecides(cfg: Config, s: State, p: Profile, component: string, code: nat, r: ReportInput)
    ensures var t, key := Collect(cfg, s, p, component, code, r), MakeKey(p.dump.name, component);
            && (key in s.inFlight || !r.dirMade || r.fd < 0 ==> t == s)
            && (key !in s.inFlight && r.dirMade && r.fd >= 0 ==> t.journal == s.journal + [Started(key, r.startAt)])
  {
    hide MakeKey, NewContext, CallDiag;
    var key := MakeKey(p.dump.name, component);
    DumpDebounce.CallDiagJournal(Opened(cfg, s, p, component, code, r), key, r.diag, r.failedAt);
  }

  /** A collection that starts and is not over at once: its event, its descriptor, one call made, and its
      temporary file in the live directory. */
  lemma StartedCollection(cfg: Config, s: State, p: Profile, component: string, code: nat, r: ReportInput)
    requires MakeKey(p.dump.name, component) !in s.inFlight && r.dirMade && r.fd >= 0
    ensures var t, key := Collect(cfg, s, p, component, code, r), MakeKey(p.dump.name, component);
            && OthersStay(s, t, key)
            && (key in t.inFlight ==>
                  var ctx := t.inFlight[key];
                  && ctx.profile == p && ctx.component == component && ctx.code == code && ctx.ts == r.startAt
                  && ctx.fd == r.fd && ctx.attempt == 1
                  && ctx.tempPath == Plain(cfg.base + "/" + s.dir + "/" + DumpName(ctx)) + ".tmp"
                  && t.open == s.open + {r.fd} && t.store == s.store.(files := s.store.files[ctx.tempPath := 0]))
            && (key !in t.inFlight ==>
                  !r.diag.Accepted?
                  && OneFailure(s.(journal := s.journal + [Started(key, r.startAt)]), t, p.dump.name, component, code,
                                "GetDiagnostics", r.diag.what, 1, r.failedAt))
  {
    hide MakeKey, IntToString, Plain, Retries, Backoff, FailContext, Cleanup, OneFailure;
    var key, begun := MakeKey(p.dump.name, component), Opened(cfg, s, p, component, code, r);
    ReplyDecides(begun, key, r.diag, r.failedAt);
    var t := Collect(cfg, s, p, component, code, r);
    if key !in t.inFlight {
      var noted := s.(journal := s.journal + [Started(key, r.startAt)]);
      SameBooks(noted, begun, t, begun.inFlight[key], "GetDiagnostics", r.diag.what, 1, r.failedAt);
    }
  }

  // ---------------------------------------------------------------- an event for several profiles

  /** What a report would start were its profile the only one. */
  ghost predicate Due(s: State, p: Profile, r: ReportInput) {
    && r.matched.Matched? && Rested(s, p, r.matched.component, r.checkAt) && r.accepts && r.dirMade && r.fd >= 0
    && MakeKey(p.dump.name, r.matched.component) !in s.inFlight
  }

  ghost function StartsOf(cfg: Config, s: State, inputs: seq<ReportInput>, n: nat): seq<Note>
    requires n <= |inputs| && n <= |cfg.profiles|
  {
    if n == 0 then []
    else
      var p, r := cfg.profiles[n - 1], inputs[n - 1];
      StartsOf(cfg, s, inputs, n - 1)
      + if Due(s, p, r) then [Started(MakeKey(p.dump.name, r.matched.component), r.startAt)] else []
  }

  ghost predicate PlainNames(profiles: seq<Profile>) {
    DumpDebounce.UniqueNames(profiles) && forall i :: 0 <= i < |profiles| ==> ':' !in profiles[i].dump.name
  }

  /** One event starts a collection for every profile that is due when it comes, in the order of the
      profiles: none keeps another from it. */
  lemma EveryProfileServed(cfg: Config, s: State, severity: string, inputs: seq<ReportInput>)
    requires PlainNames(cfg.profiles) && |inputs| == |cfg.profiles|
    requires Occurs(severity, "Critical") || Occurs(severity, "Warning")
    ensures Step(cfg, s, Reported(severity, inputs)).journal == s.journal + StartsOf(cfg, s, inputs, |inputs|)
  {
    hide Contains, Occurs, ReportAll, StartsOf, PlainNames;
    ContainsIff(severity, "Critical");
    ContainsIff(severity, "Warning");
    ServedInOrder(cfg, s, inputs, |inputs|);
  }

  lemma {:induction false} ServedInOrder(cfg: Config, s: State, inputs: seq<ReportInput>, n: nat)
    requires PlainNames(cfg.profiles) && n <= |inputs| && n <= |cfg.profiles|
    ensures var t := ReportAll(cfg, s, inputs, n);
            && t.journal == s.journal + StartsOf(cfg, s, inputs, n)
            && forall i, component :: n <= i < |cfg.profiles| ==>
                 var key := MakeKey(cfg.profiles[i].dump.name, component);
                 (key in t.inFlight <==> key in s.inFlight)
  {
    hide Report, Due, MakeKey, Rested;
    if n > 0 {
      ServedInOrder(cfg, s, inputs, n - 1);
      var before, p, r := ReportAll(cfg, s, inputs, n - 1), cfg.profiles[n - 1], inputs[n - 1];
      DumpDebounce.ReportAllOnly(cfg, s, inputs, n - 1);
      NotedIfDue(cfg, s, before, n - 1, r);
      forall i, component | n <= i < |cfg.profiles|
        ensures var key := MakeKey(cfg.profiles[i].dump.name, component);
                key in ReportAll(cfg, s, inputs, n).inFlight <==> key in s.inFlight
      {
        assert cfg.profiles[n - 1].dump.name != cfg.profiles[i].dump.name;
        OtherProfileStays(cfg, before, p, r, cfg.profiles[i].dump.name, component);
      }
    }
  }

  lemma NotedIfDue(cfg: Config, s: State, now: State, i: nat, r: ReportInput)
    requires PlainNames(cfg.profiles) && i < |cfg.profiles| && now.debounce == s.debounce
    requires r.matched.Matched? ==>
               var key := MakeKey(cfg.profiles[i].dump.name, r.matched.component);
               (key in now.inFlight <==> key in s.inFlight)
    ensures var p := cfg.profiles[i];
            Report(cfg, now, p, r).journal
            == now.journal
               + if Due(s, p, r) then [Started(MakeKey(p.dump.name, r.matched.component), r.startAt)] else []
  {
    hide MakeKey, Report, WindowOf;
    DumpDebounce.WindowOfUnique(cfg.profiles, i);
    DumpDebounce.StartIsNoted(cfg, now, cfg.profiles[i], r);
  }

  lemma OtherProfileStays(cfg: Config, s: State, p: Profile, r: ReportInput, name: string, component: string)
    requires p.dump.name != name && ':' !in p.dump.name && ':' !in name
    ensures MakeKey(name, component) in Report(cfg, s, p, r).inFlight <==> MakeKey(name, component) in s.inFlight
  {
    hide MakeKey, MayStart, Collect;
    if r.matched.Matched? {
      var own := MakeKey(p.dump.name, r.matched.component);
      KeysTellDevices(p.dump.name, r.matched.component, name, component);
      if own !in s.inFlight && r.dirMade && r.fd >= 0 {
        StartedCollection(cfg, s, p, r.matched.component, r.matched.code, r);
      } else {
        CollectDecides(cfg, s, p, r.matched.component, r.matched.code, r);
      }
    }
  }
}

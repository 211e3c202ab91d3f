/** Debounce over runs: how long after a success the same device is left alone. */
module DumpDebounce {
  import opened DumpPaths
  import opened DumpStore
  import opened DumpHandler
  import opened DumpOutcomes

  /** The clock reads of a callback that matter here lie between from and to. */
  ghost predicate Within(e: Event, from: int, to: int) {
    match e
    case Reported(severity, inputs) =>
      from <= to && forall i :: 0 <= i < |inputs| ==> from <= inputs[i].checkAt <= inputs[i].startAt <= to
    case Ticked(key, input) =>
      from <= to && (input.poll.Done? ==> from <= input.poll.completion.rowAt <= input.poll.completion.doneAt <= to)
    case Rotated(dir) =>
      from <= to
  }

  /** A clock that never goes back: clock[i] is its reading before event i. */
  ghost predicate Clocked(events: seq<Event>, clock: seq<int>) {
    |clock| == |events| + 1 && forall i :: 0 <= i < |events| ==> Within(events[i], clock[i], clock[i + 1])
  }

  /** Every success is remembered with a time no earlier than its completion. */
  ghost predicate Remembered(s: State, now: int) {
    && (forall i :: 0 <= i < |s.rows| && s.rows[i].status.SUCCESS? ==>
          KeyOf(s.rows[i]) in s.debounce && s.rows[i].completed <= s.debounce[KeyOf(s.rows[i])])
    && (forall k :: k in s.debounce ==> s.debounce[k] <= now)
  }

  ghost predicate NoLate(cfg: Config, s: State, events: seq<Event>) {
    forall i, key :: 0 <= i < |events| ==> !Late(Run(cfg, s, events[..i]), events[i], key)
  }

  ghost predicate UniqueNames(profiles: seq<Profile>) {
    forall i, j :: 0 <= i < j < |profiles| ==> profiles[i].dump.name != profiles[j].dump.name
  }

  /** This report starts a collection. */
  predicate Starts(cfg: Config, s: State, p: Profile, r: ReportInput) {
    && r.matched.Matched? && r.accepts && r.dirMade && r.fd >= 0
    && MayStart(cfg, s, p.dump.name, r.matched.component, r.checkAt)
    && MakeKey(p.dump.name, r.matched.component) !in s.inFlight
  }

  // ---------------------------------------------------------------- remembering

  /** Nothing but FAILED rows is added and no debounce entry changes. */
  ghost predicate OnlyFailures(s: State, t: State) {
    && t.debounce == s.debounce && |s.rows| <= |t.rows| && t.rows[..|s.rows|] == s.rows
    && forall i :: |s.rows| <= i < |t.rows| ==> t.rows[i].status.FAILED?
  }

  lemma OnlyFailuresRemembers(s: State, t: State, now: int, later: int)
    requires Remembered(s, now) && OnlyFailures(s, t) && now <= later
    ensures Remembered(t, later)
  {
    forall i | 0 <= i < |t.rows| && t.rows[i].status.SUCCESS?
      ensures KeyOf(t.rows[i]) in t.debounce && t.rows[i].completed <= t.debounce[KeyOf(t.rows[i])]
    {
      assert t.rows[i] == t.rows[..|s.rows|][i] == s.rows[i];
    }
  }

  lemma OnlyFailuresTrans(s: State, t: State, u: State)
    requires OnlyFailures(s, t) && OnlyFailures(t, u)
    ensures OnlyFailures(s, u)
  {
    assert u.rows[..|s.rows|] == u.rows[..|t.rows|][..|s.rows|];
    forall i | |s.rows| <= i < |u.rows| ensures u.rows[i].status.FAILED? {
      if i < |t.rows| {
        assert u.rows[i] == u.rows[..|t.rows|][i];
      }
    }
  }

  lemma FailOnly(s: State, ctx: Context, stage: string, detail: string, attempts: nat, at: int)
    ensures OnlyFailures(s, FailContext(s, ctx, stage, detail, attempts, at))
  {
  }

  lemma CleanupOnly(s: State, key: string)
    ensures OnlyFailures(s, Cleanup(s, key))
  {
  }

  lemma FailThenCleanup(s: State, key: string, ctx: Context, stage: string, detail: string, at: int)
    ensures OnlyFailures(s, Cleanup(FailContext(s, ctx, stage, detail, ctx.attempt, at), key))
  {
    hide Cleanup, FailContext, OnlyFailures;
    FailOnly(s, ctx, stage, detail, ctx.attempt, at);
    CleanupOnly(FailContext(s, ctx, stage, detail, ctx.attempt, at), key);
    OnlyFailuresTrans(s, FailContext(s, ctx, stage, detail, ctx.attempt, at),
                      Cleanup(FailContext(s, ctx, stage, detail, ctx.attempt, at), key));
  }

  lemma CallDiagOnly(s: State, key: string, reply: DiagReply, at: int)
    ensures OnlyFailures(s, CallDiag(s, key, reply, at))
  {
    hide Cleanup, FailContext, Retries, Backoff;
    if key in s.inFlight && !reply.Accepted? {
      var ctx := s.inFlight[key].(attempt := s.inFlight[key].attempt + 1);
      FailThenCleanup(WithContext(s, key, ctx), key, ctx, "GetDiagnostics", reply.what, at);
    }
  }

  /** A completion leaves the memory intact, unless it throws behind its row. */
  lemma CompleteRemembers(cfg: Config, s: State, ctx: Context, c: Completion, now: int, later: int)
    requires Remembered(s, now) && now <= c.rowAt <= c.doneAt <= later && !LateCompletion(c)
    ensures Remembered(Complete(cfg, s, ctx, c).0, later)
  {
    hide Stored, FileOf, PathOf, RelativeTo, MakeKey, FailContext;
    FailOnly(s, ctx, "DiskSpaceCheck", POST_CHECK, 0, c.failedAt);
    OnlyFailuresRemembers(s, FailContext(s, ctx, "DiskSpaceCheck", POST_CHECK, 0, c.failedAt), now, later);
    var s1 := s.(store := Stored(s.store, ctx.profile.dump, FileOf(cfg, s.dir, ctx), ctx.ts, c.write, {}));
    FailOnly(s1, ctx, "StoreWriteFailed", STORE_FAILED, 0, c.failedAt);
    OnlyFailuresRemembers(s1, FailContext(s1, ctx, "StoreWriteFailed", STORE_FAILED, 0, c.failedAt), now, later);
  }

  lemma PollRemembers(cfg: Config, s: State, key: string, reply: PollReply, at: int, now: int, later: int)
    requires Remembered(s, now) && now <= later
    requires reply.Done? ==> now <= reply.completion.rowAt <= reply.completion.doneAt <= later
    requires reply.Done? && key in s.inFlight ==> !LateCompletion(reply.completion)
    ensures Remembered(Poll(cfg, s, key, reply, at), later)
  {
    hide Remembered, OnlyFailures, Cleanup, FailContext, Complete, Close, TimedOut;
    OnlyFailuresItself(s);
    OnlyFailuresRemembers(s, s, now, later);
    if key in s.inFlight {
      var ctx := s.inFlight[key];
      match reply
      case Done(c) =>
        var closing := ctx.(fd := -1);
        var s0 := WithContext(Close(s, ctx.fd), key, closing);
        ClosedOnly(s, key, ctx.fd, closing);
        OnlyFailuresRemembers(s, s0, now, now);
        CompleteRemembers(cfg, s0, closing, c, now, later);
        var s1 := Complete(cfg, s0, closing, c).0;
        CleanupOnly(s1, key);
        OnlyFailuresRemembers(s1, Cleanup(s1, key), later, later);
        FailedPollRemembers(s1, key, ctx, c.what, at, later, later);
      case InProgress =>
        FailedPollRemembers(s, key, ctx, TimedOut(ctx.profile.retrieval.timeoutSecs), at, now, later);
      case OtherStatus(text) =>
        FailedPollRemembers(s, key, ctx, text, at, now, later);
      case Throws(what) =>
        FailedPollRemembers(s, key, ctx, what, at, now, later);
    }
  }

  lemma OnlyFailuresItself(s: State)
    ensures OnlyFailures(s, s)
  {
  }

  lemma ClosedOnly(s: State, key: string, fd: int, ctx: Context)
    ensures OnlyFailures(s, WithContext(Close(s, fd), key, ctx))
  {
  }

  lemma FailedPollRemembers(s: State, key: string, ctx: Context, detail: string, at: int, now: int, later: int)
    requires Remembered(s, now) && now <= later
    ensures Remembered(Cleanup(FailContext(s, ctx, "AsyncStatus", detail, ctx.attempt, at), key), later)
  {
    hide Remembered, OnlyFailures, Cleanup, FailContext;
    FailThenCleanup(s, key, ctx, "AsyncStatus", detail, at);
    OnlyFailuresRemembers(s, Cleanup(FailContext(s, ctx, "AsyncStatus", detail, ctx.attempt, at), key), now, later);
  }

  lemma ReportOnly(cfg: Config, s: State, p: Profile, r: ReportInput)
    ensures OnlyFailures(s, Report(cfg, s, p, r))
  {
    hide CallDiag, MayStart, MakeKey, FileName;
    if r.matched.Matched? {
      var key := MakeKey(p.dump.name, r.matched.component);
      CallDiagOnly(Opened(cfg, s, p, r.matched.component, r.matched.code, r), key, r.diag, r.failedAt);
    }
  }

  lemma {:induction false} ReportAllOnly(cfg: Config, s: State, inputs: seq<ReportInput>, n: nat)
    requires n <= |inputs| && n <= |cfg.profiles|
    ensures OnlyFailures(s, ReportAll(cfg, s, inputs, n))
  {
    hide Report, OnlyFailures;
    if n == 0 {
      OnlyFailuresItself(s);
    } else {
      ReportAllOnly(cfg, s, inputs, n - 1);
      var before := ReportAll(cfg, s, inputs, n - 1);
      ReportOnly(cfg, before, cfg.profiles[n - 1], inputs[n - 1]);
      OnlyFailuresTrans(s, before, ReportAll(cfg, s, inputs, n));
    }
  }

  lemma RotatedOnly(s: State, dir: string)
    ensures OnlyFailures(s, s.(dir := dir))
  {
  }

  lemma StepRemembers(cfg: Config, s: State, e: Event, now: int, later: int)
    requires Remembered(s, now) && Within(e, now, later) && forall key :: !Late(s, e, key)
    ensures Remembered(Step(cfg, s, e), later)
  {
    hide Remembered, OnlyFailures, ReportAll, Severe, CallDiag, Poll, LateCompletion;
    OnlyFailuresItself(s);
    OnlyFailuresRemembers(s, s, now, later);
    match e
    case Reported(severity, inputs) =>
      if |inputs| == |cfg.profiles| {
        ReportAllOnly(cfg, s, inputs, |inputs|);
        OnlyFailuresRemembers(s, ReportAll(cfg, s, inputs, |inputs|), now, later);
      }
    case Ticked(key, input) =>
      assert !Late(s, e, key);
      if key in s.inFlight {
        var ctx := s.inFlight[key];
        var waited := WithContext(s, key, ctx.(wait := ctx.wait - 1));
        var polled := WithContext(s, key, ctx.(elapsed := ctx.elapsed + 1));
        WithContextOnly(s, key, ctx.(wait := ctx.wait - 1));
        WithContextOnly(s, key, ctx.(elapsed := ctx.elapsed + 1));
        OnlyFailuresRemembers(s, waited, now, later);
        OnlyFailuresRemembers(s, polled, now, now);
        CallDiagOnly(waited, key, input.diag, input.at);
        OnlyFailuresRemembers(waited, CallDiag(waited, key, input.diag, input.at), later, later);
        if ctx.phase.PollingStatus? {
          PollRemembers(cfg, polled, key, input.poll, input.at, now, later);
        }
      }
    case Rotated(dir) =>
      RotatedOnly(s, dir);
      OnlyFailuresRemembers(s, s.(dir := dir), now, later);
  }

  lemma WithContextOnly(s: State, key: string, ctx: Context)
    ensures OnlyFailures(s, WithContext(s, key, ctx))
  {
  }

  lemma {:induction false} RunRemembers(cfg: Config, s: State, events: seq<Event>, clock: seq<int>)
    requires Clocked(events, clock) && Remembered(s, clock[0]) && NoLate(cfg, s, events)
    ensures Remembered(Run(cfg, s, events), clock[|events|])
  {
    hide Step, Remembered, Late;
    if events != [] {
      var n := |events| - 1;
      forall i, key | 0 <= i < n ensures !Late(Run(cfg, s, events[..n][..i]), events[..n][i], key) {
        assert events[..n][..i] == events[..i];
      }
      RunRemembers(cfg, s, events[..n], clock[..n + 1]);
      assert Within(events[n], clock[n], clock[n + 1]);
      StepRemembers(cfg, Run(cfg, s, events[..n]), events[n], clock[n], clock[n + 1]);
    }
  }

  // ---------------------------------------------------------------- separation

  lemma {:induction false} WindowOfUnique(profiles: seq<Profile>, i: nat)
    requires UniqueNames(profiles) && i < |profiles|
    ensures WindowOf(profiles, profiles[i].dump.name) == profiles[i].windowSecs
  {
    if i > 0 {
      WindowOfUnique(profiles[1..], i - 1);
    }
  }

  /** A start respects the window of every success remembered. */
  lemma StartRespectsWindow(cfg: Config, s: State, i: nat, r: ReportInput, now: int, j: nat)
    requires UniqueNames(cfg.profiles) && i < |cfg.profiles| && cfg.profiles[i].windowSecs > 0
    requires Remembered(s, now) && Starts(cfg, s, cfg.profiles[i], r) && r.checkAt <= r.startAt
    requires j < |s.rows| && s.rows[j].status.SUCCESS?
    requires KeyOf(s.rows[j]) == MakeKey(cfg.profiles[i].dump.name, r.matched.component)
    ensures r.startAt >= s.rows[j].completed + cfg.profiles[i].windowSecs
  {
    hide MakeKey, WindowOf, UniqueNames;
    WindowOfUnique(cfg.profiles, i);
  }

  /** Over every run from startup with a clock that never goes back: whenever a report starts a
      collection for a profile with a debounce window, every earlier success of that device
      completed at least the window before. */
  lemma StartsAreSeparated(cfg: Config, s: State, events: seq<Event>, clock: seq<int>, severity: string,
                           inputs: seq<ReportInput>, i: nat, j: nat)
    requires UniqueNames(cfg.profiles) && s.rows == [] && s.debounce == map[]
    requires Clocked(events + [Reported(severity, inputs)], clock) && NoLate(cfg, s, events)
    requires |inputs| == |cfg.profiles| && i < |inputs| && cfg.profiles[i].windowSecs > 0
    requires var now := ReportAll(cfg, Run(cfg, s, events), inputs, i);
             && Starts(cfg, now, cfg.profiles[i], inputs[i])
             && j < |now.rows| && now.rows[j].status.SUCCESS?
             && KeyOf(now.rows[j]) == MakeKey(cfg.profiles[i].dump.name, inputs[i].matched.component)
    ensures inputs[i].startAt
         >= ReportAll(cfg, Run(cfg, s, events), inputs, i).rows[j].completed + cfg.profiles[i].windowSecs
  {
    hide Run, ReportAll, Starts, OnlyFailures, NoLate, UniqueNames, MakeKey;
    var all := events + [Reported(severity, inputs)];
    var n := |events|;
    assert all[n] == Reported(severity, inputs);
    ClockedPrefix(events, Reported(severity, inputs), clock);
    RunRemembers(cfg, s, events, clock[..n + 1]);
    var before := Run(cfg, s, events);
    ReportAllOnly(cfg, before, inputs, i);
    OnlyFailuresRemembers(before, ReportAll(cfg, before, inputs, i), clock[n], clock[n]);
    StartRespectsWindow(cfg, ReportAll(cfg, before, inputs, i), i, inputs[i], clock[n], j);
  }

  lemma ClockedPrefix(events: seq<Event>, e: Event, clock: seq<int>)
    requires Clocked(events + [e], clock)
    ensures Clocked(events, clock[..|events| + 1]) && Within(e, clock[|events|], clock[|events| + 1])
  {
    var all := events + [e];
    assert all[|events|] == e;
    forall i | 0 <= i < |events| ensures Within(events[i], clock[i], clock[i + 1]) {
      assert all[i] == events[i];
    }
  }

  /** Some events from startup, a report after them, and a success that it could violate. */
  datatype Trial = Trial(events: seq<Event>, clock: seq<int>, severity: string, inputs: seq<ReportInput>, j: nat)

  ghost predicate FaultsWithin(events: seq<Event>, faults: set<Fault>) {
    forall i :: 0 <= i < |events| && events[i].Ticked? && events[i].input.poll.Done? ==>
      events[i].input.poll.completion.fault in faults
  }

  /** The report starts a collection for profile i, and row j is an earlier success of that device. */
  ghost predicate Applies(cfg: Config, s: State, i: nat, faults: set<Fault>, t: Trial)
    requires i < |cfg.profiles|
  {
    && FaultsWithin(t.events, faults)
    && Clocked(t.events + [Reported(t.severity, t.inputs)], t.clock)
    && |t.inputs| == |cfg.profiles|
    && var now := ReportAll(cfg, Run(cfg, s, t.events), t.inputs, i);
       && Starts(cfg, now, cfg.profiles[i], t.inputs[i])
       && t.j < |now.rows| && now.rows[t.j].status.SUCCESS?
       && KeyOf(now.rows[t.j]) == MakeKey(cfg.profiles[i].dump.name, t.inputs[i].matched.component)
  }

  ghost predicate Apart(cfg: Config, s: State, i: nat, t: Trial)
    requires i < |cfg.profiles| == |t.inputs| && t.j < |ReportAll(cfg, Run(cfg, s, t.events), t.inputs, i).rows|
  {
    var before := ReportAll(cfg, Run(cfg, s, t.events), t.inputs, i);
    t.inputs[i].startAt >= before.rows[t.j].completed + cfg.profiles[i].windowSecs
  }

  lemma NoLateWithin(cfg: Config, s: State, events: seq<Event>, faults: set<Fault>)
    requires FaultsWithin(events, faults) && AfterRow !in faults
    ensures NoLate(cfg, s, events)
  {
    hide Run;
  }

  /** From startup: a completion that throws behind its SUCCESS row, and a start of the same device
      in the same second. */
  lemma LateThrowLetsStart(cfg: Config, s: State, i: nat, component: string) returns (t: Trial)
    requires s.inFlight == map[] && s.debounce == map[] && s.rows == []
    requires i < |cfg.profiles| && cfg.profiles[i].windowSecs > 0
    ensures Applies(cfg, s, i, {AfterRow}, t) && !Apart(cfg, s, i, t)
  {
    hide ReportAll, MakeKey, FileName, Report, Tick, Severe, Starts;
    var p := cfg.profiles[i];
    var key := MakeKey(p.dump.name, component);
    var r := ReportInput(Matched(component, 0), true, 0, 0, 0, true, 0, Accepted);
    var c := Completion(Bytes(1), true, Written(0), AfterRow, "", 0, 0, 0);
    var start, tick := Reported("Critical", Only(cfg, i, r)), Ticked(key, TickInput(Accepted, Done(c), 0));
    t := Trial([start, tick], [0, 0, 0, 0], "Critical", Only(cfg, i, r), 0);
    CriticalIsSevere();
    OnlyReports(cfg, s, i, r, |cfg.profiles|);
    StartedAccepted(cfg, s, p, component, r);
    var s1 := Step(cfg, s, start);
    TwoSteps(cfg, s, start, tick);
    LateTick(cfg, s1, key, tick.input);
    var now := Step(cfg, s1, tick);
    OnlyReports(cfg, now, i, r, i);
    StartsAgain(cfg, now, p, r);
    TrialIsClocked(cfg, i, r, tick);
  }

  lemma TwoSteps(cfg: Config, s: State, a: Event, b: Event)
    ensures Run(cfg, s, [a, b]) == Step(cfg, Step(cfg, s, a), b)
  {
    hide Step;
    assert [a, b][..1] == [a] && [a][..0] == [];
    assert Run(cfg, s, [a]) == Step(cfg, s, a);
  }

  lemma LateTick(cfg: Config, s: State, key: string, input: TickInput)
    requires key in s.inFlight && s.inFlight == map[key := s.inFlight[key]] && s.inFlight[key].phase.PollingStatus?
    requires MakeKey(s.inFlight[key].profile.dump.name, s.inFlight[key].component) == key && s.rows == []
    requires input.poll.Done? && LateCompletion(input.poll.completion)
    ensures var now := Tick(cfg, s, key, input);
            && now.inFlight == map[] && now.debounce == s.debounce && |now.rows| > 0
            && now.rows[0].status.SUCCESS? && KeyOf(now.rows[0]) == key
            && now.rows[0].completed == input.poll.completion.rowAt
  {
    hide FileName, FileIn, TempPath, RelativeTo, MakeKey, Stored;
  }

  lemma StartsAgain(cfg: Config, s: State, p: Profile, r: ReportInput)
    requires s.inFlight == map[] && s.debounce == map[]
    requires r.matched.Matched? && r.accepts && r.dirMade && r.fd >= 0
    ensures Starts(cfg, s, p, r)
  {
    hide MakeKey, WindowOf;
  }

  lemma TrialIsClocked(cfg: Config, i: nat, r: ReportInput, tick: Event)
    requires r.checkAt == r.startAt == 0 && tick.Ticked? && tick.input.poll.Done?
    requires tick.input.poll.completion.rowAt == tick.input.poll.completion.doneAt == 0
    ensures var start := Reported("Critical", Only(cfg, i, r)); Clocked([start, tick] + [start], [0, 0, 0, 0])
  {
    var start := Reported("Critical", Only(cfg, i, r));
    assert Within(start, 0, 0) && Within(tick, 0, 0);
    assert [start, tick] + [start] == [start, tick, start];
  }

  /** Starts are kept a window apart from every earlier success, over all runs from startup whose
      completions throw at most where faults says, exactly when none throws behind its SUCCESS row. */
  lemma SeparatedIff(cfg: Config, s: State, i: nat, faults: set<Fault>)
    requires UniqueNames(cfg.profiles) && i < |cfg.profiles| && cfg.profiles[i].windowSecs > 0
    requires s.inFlight == map[] && s.debounce == map[] && s.rows == []
    ensures (forall t :: Applies(cfg, s, i, faults, t) ==> Apart(cfg, s, i, t)) <==> AfterRow !in faults
  {
    hide Run, ReportAll, Starts, NoLate, UniqueNames, MakeKey, Clocked, FaultsWithin;
    if AfterRow !in faults {
      forall t | Applies(cfg, s, i, faults, t) ensures Apart(cfg, s, i, t) {
        NoLateWithin(cfg, s, t.events, faults);
        StartsAreSeparated(cfg, s, t.events, t.clock, t.severity, t.inputs, i, t.j);
      }
    } else {
      var t := LateThrowLetsStart(cfg, s, i, "");
      MoreFaults(t.events, {AfterRow}, faults);
    }
  }

  lemma MoreFaults(events: seq<Event>, few: set<Fault>, faults: set<Fault>)
    requires FaultsWithin(events, few) && few <= faults
    ensures FaultsWithin(events, faults)
  {
  }

  /** Starts is what the code does: exactly then a start is noted in the journal. */
  lemma StartIsNoted(cfg: Config, s: State, p: Profile, r: ReportInput)
    ensures Starts(cfg, s, p, r) ==>
              Report(cfg, s, p, r).journal
              == s.journal + [Started(MakeKey(p.dump.name, r.matched.component), r.startAt)]
    ensures !Starts(cfg, s, p, r) ==> Report(cfg, s, p, r).journal == s.journal
  {
    hide CallDiag, MayStart, MakeKey, FileName;
    if r.matched.Matched? {
      var key := MakeKey(p.dump.name, r.matched.component);
      CallDiagJournal(Opened(cfg, s, p, r.matched.component, r.matched.code, r), key, r.diag, r.failedAt);
    }
  }

  lemma CallDiagJournal(s: State, key: string, reply: DiagReply, at: int)
    ensures CallDiag(s, key, reply, at).journal == s.journal
  {
    hide Retries, Backoff;
  }
}

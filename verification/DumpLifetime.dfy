/** How long a collection can last: retries, backoff and the polling timeout. */
module DumpLifetime {
  import opened Text
  import opened DumpPaths
  import opened DumpStore
  import opened DumpHandler

  const INT32_MAX: int := 0x7FFF_FFFF

  function Retries0(r: Retrieval): nat {
    if r.maxRetries > 0 then r.maxRetries else 0
  }

  function PollSecs(r: Retrieval): nat {
    if r.timeoutSecs > 1 then r.timeoutSecs else 1
  }

  /** Seconds of waiting and polling still possible after attempt calls. */
  function Budget(r: Retrieval, attempt: nat): int {
    BaseSecs(r) * (Pow2(Retries0(r)) - Pow2(attempt)) + PollSecs(r)
  }

  function MaxTicks(r: Retrieval): int {
    BaseSecs(r) * (Pow2(Retries0(r)) - 1) + PollSecs(r)
  }

  /** What holds of every context between callbacks. */
  ghost predicate Sound(ctx: Context) {
    var r := ctx.profile.retrieval;
    match ctx.phase
    case AwaitingGetDiag => false
    case RetryWaiting => 1 <= ctx.attempt <= Retries0(r) && 1 <= ctx.wait <= Backoff(r, ctx.attempt)
    case PollingStatus => 1 <= ctx.attempt <= Retries0(r) + 1 && ctx.elapsed < PollSecs(r)
  }

  /** The ticks a context has left at most. */
  function Fuel(ctx: Context): int {
    var r := ctx.profile.retrieval;
    if ctx.phase.RetryWaiting? then ctx.wait + Budget(r, ctx.attempt) else PollSecs(r) - ctx.elapsed
  }

  // ---------------------------------------------------------------- powers of two

  lemma {:induction false} Pow2Grows(m: nat, n: nat)
    requires m <= n
    ensures 1 <= Pow2(m) <= Pow2(n)
  {
    if n > 0 {
      Pow2Grows(if m == n then m - 1 else m, n - 1);
      if m == n {
        Pow2Grows(0, n - 1);
      }
    }
  }

  lemma Scale(b: nat, x: int, y: int)
    requires x <= y
    ensures b * x <= b * y
  {
  }

  lemma Distribute(b: int, x: int, y: int)
    ensures b * (x - y) == b * y + b * (x - 2 * y)
  {
  }

  lemma Pow2Step(a: nat)
    ensures Pow2(a + 1) == 2 * Pow2(a) && Pow2(0) == 1
  {
  }

  lemma BudgetShrinks(r: Retrieval, a: nat)
    ensures Budget(r, a) == BaseSecs(r) * Pow2(a) + Budget(r, a + 1)
    ensures a <= Retries0(r) ==> Budget(r, a) >= PollSecs(r)
    ensures Budget(r, 0) == MaxTicks(r)
  {
    hide Pow2, BaseSecs, Retries0, PollSecs;
    Distribute(BaseSecs(r), Pow2(Retries0(r)), Pow2(a));
    Pow2Step(a);
    if a <= Retries0(r) {
      Pow2Grows(a, Retries0(r));
      Scale(BaseSecs(r), 0, Pow2(Retries0(r)) - Pow2(a));
    }
  }

  lemma BudgetAtMost(r: Retrieval, a: nat)
    ensures Budget(r, a) <= MaxTicks(r)
  {
    Pow2Grows(0, a);
    Scale(BaseSecs(r), Pow2(Retries0(r)) - Pow2(a), Pow2(Retries0(r)) - 1);
  }

  lemma SoundFuel(ctx: Context)
    requires Sound(ctx)
    ensures 1 <= Fuel(ctx) <= MaxTicks(ctx.profile.retrieval)
  {
    hide BaseSecs, Budget, MaxTicks, PollSecs, Retries0;
    var r := ctx.profile.retrieval;
    PollSecsPositive(r);
    BudgetShrinks(r, 0);
    if ctx.phase.RetryWaiting? {
      BudgetShrinks(r, ctx.attempt);
      BudgetShrinks(r, ctx.attempt - 1);
      BudgetAtMost(r, ctx.attempt - 1);
    }
  }

  lemma PollSecsPositive(r: Retrieval)
    ensures PollSecs(r) >= 1
  {
  }

  // ---------------------------------------------------------------- one step

  /** Context ctx' follows ctx after some ticks. */
  ghost predicate Follows(before: Context, after: Context, ticks: nat) {
    after.profile == before.profile && Sound(after) && Fuel(after) <= Fuel(before) - ticks
    && after.attempt >= before.attempt
  }

  lemma CleanupOnly(s: State, key: string)
    ensures Cleanup(s, key).inFlight == s.inFlight - {key}
  {
  }

  lemma CallDiagOthers(s: State, key: string, reply: DiagReply, at: int, k: string)
    requires k != key
    ensures (k in CallDiag(s, key, reply, at).inFlight <==> k in s.inFlight)
    ensures k in s.inFlight ==> CallDiag(s, key, reply, at).inFlight[k] == s.inFlight[k]
  {
    hide Retries, Backoff;
  }

  /** A GetDiagnostics call ends the collection or leaves it no more ticks than before. */
  lemma CallDiagFuel(s: State, key: string, reply: DiagReply, at: int)
    requires key in s.inFlight && s.inFlight[key].attempt <= Retries0(s.inFlight[key].profile.retrieval)
    ensures key in CallDiag(s, key, reply, at).inFlight ==>
              var before, after := s.inFlight[key], CallDiag(s, key, reply, at).inFlight[key];
              && Sound(after) && after.profile == before.profile && after.attempt == before.attempt + 1
              && Fuel(after) <= Budget(before.profile.retrieval, before.attempt)
  {
    hide Budget, BaseSecs, MaxTicks, Cleanup, Contains, PollSecs;
    var ctx := s.inFlight[key];
    BudgetShrinks(ctx.profile.retrieval, ctx.attempt);
    PollSecsPositive(ctx.profile.retrieval);
    Pow2Grows(0, ctx.attempt);
    BackoffPositive(ctx.profile.retrieval, ctx.attempt + 1);
    CleanupOnly(FailContext(WithContext(s, key, ctx.(attempt := ctx.attempt + 1)), ctx.(attempt := ctx.attempt + 1),
                            "GetDiagnostics", if reply.Accepted? then "" else reply.what, ctx.attempt + 1, at), key);
  }

  lemma BackoffPositive(r: Retrieval, attempt: nat)
    requires attempt > 0
    ensures Backoff(r, attempt) >= 1
  {
    Pow2Grows(0, attempt - 1);
    Scale(Pow2(attempt - 1), 1, BaseSecs(r));
  }

  lemma PollFuel(cfg: Config, s: State, key: string, reply: PollReply, at: int)
    requires key in s.inFlight
    ensures forall k :: k != key ==> (k in Poll(cfg, s, key, reply, at).inFlight <==> k in s.inFlight)
    ensures forall k :: k != key && k in s.inFlight ==> Poll(cfg, s, key, reply, at).inFlight[k] == s.inFlight[k]
    ensures key in Poll(cfg, s, key, reply, at).inFlight ==>
              && Poll(cfg, s, key, reply, at).inFlight[key] == s.inFlight[key]
              && s.inFlight[key].elapsed < s.inFlight[key].profile.retrieval.timeoutSecs
  {
    hide Complete, Close, FailContext, TimedOut;
    var ctx := s.inFlight[key];
    if reply.Done? {
      CompleteKeepsContexts(cfg, WithContext(Close(s, ctx.fd), key, ctx.(fd := -1)), ctx.(fd := -1), reply.completion);
      FailKeepsContexts(Complete(cfg, WithContext(Close(s, ctx.fd), key, ctx.(fd := -1)), ctx.(fd := -1),
                                 reply.completion).0,
                        ctx, reply.completion.what, at);
      CloseKeepsContexts(s, ctx.fd);
    } else {
      FailKeepsContexts(s, ctx, if reply.OtherStatus? then reply.text else if reply.Throws? then reply.what
                                else TimedOut(ctx.profile.retrieval.timeoutSecs), at);
    }
  }

  lemma CloseKeepsContexts(s: State, fd: int)
    ensures Close(s, fd).inFlight == s.inFlight
  {
  }

  lemma FailKeepsContexts(s: State, ctx: Context, detail: string, at: int)
    ensures FailContext(s, ctx, "AsyncStatus", detail, ctx.attempt, at).inFlight == s.inFlight
  {
  }

  lemma CompleteKeepsContexts(cfg: Config, s: State, ctx: Context, c: Completion)
    ensures Complete(cfg, s, ctx, c).0.inFlight == s.inFlight
  {
    hide Stored, FileOf, PathOf, RelativeTo, MakeKey;
  }

  /** A tick of another key changes nothing; a tick of its own costs a context one unit of fuel. */
  lemma TickFuel(cfg: Config, s: State, k: string, input: TickInput, key: string)
    requires key in s.inFlight && Sound(s.inFlight[key])
    ensures var now := Tick(cfg, s, k, input).inFlight;
            && (k != key ==> key in now)
            && (key in now ==> Follows(s.inFlight[key], now[key], if k == key then 1 else 0))
  {
    hide CallDiag, Poll, Budget, MaxTicks, Backoff, PollSecs, BaseSecs, Retries0;
    if k in s.inFlight {
      var ctx := s.inFlight[k];
      if ctx.phase.RetryWaiting? {
        var s1 := WithContext(s, k, ctx.(wait := ctx.wait - 1));
        if k != key {
          CallDiagOthers(s1, k, input.diag, input.at, key);
        } else {
          CallDiagFuel(s1, k, input.diag, input.at);
        }
      } else if ctx.phase.PollingStatus? {
        PollFuel(cfg, WithContext(s, k, ctx.(elapsed := ctx.elapsed + 1)), k, input.poll, input.at);
        PollSecsAbove(ctx.profile.retrieval);
      }
    }
  }

  lemma PollSecsAbove(r: Retrieval)
    ensures r.timeoutSecs <= PollSecs(r)
  {
  }

  /** A report starts only keys that are not in flight, and leaves them sound. */
  lemma ReportFuel(cfg: Config, s: State, p: Profile, r: ReportInput, key: string)
    ensures var now := Report(cfg, s, p, r).inFlight;
            && (key in s.inFlight ==> key in now && now[key] == s.inFlight[key])
            && (key !in s.inFlight && key in now ==> Sound(now[key]))
  {
    hide CallDiag, MayStart, MakeKey, FileName, Sound, Fuel;
    if r.matched.Matched? {
      var own := MakeKey(p.dump.name, r.matched.component);
      var s1 := Opened(cfg, s, p, r.matched.component, r.matched.code, r);
      if key != own {
        CallDiagOthers(s1, own, r.diag, r.failedAt, key);
      } else {
        CallDiagFuel(s1, own, r.diag, r.failedAt);
      }
    }
  }

  lemma {:induction false} ReportAllFuel(cfg: Config, s: State, inputs: seq<ReportInput>, n: nat, key: string)
    requires n <= |inputs| && n <= |cfg.profiles|
    ensures var now := ReportAll(cfg, s, inputs, n).inFlight;
            && (key in s.inFlight ==> key in now && now[key] == s.inFlight[key])
            && (key !in s.inFlight && key in now ==> Sound(now[key]))
  {
    hide Report, Sound;
    if n > 0 {
      ReportAllFuel(cfg, s, inputs, n - 1, key);
      ReportFuel(cfg, ReportAll(cfg, s, inputs, n - 1), cfg.profiles[n - 1], inputs[n - 1], key);
    }
  }

  function TicksIn(e: Event, key: string): nat {
    if e.Ticked? && e.key == key then 1 else 0
  }

  lemma StepFuel(cfg: Config, s: State, e: Event, key: string)
    requires AllSound(s)
    ensures var now := Step(cfg, s, e).inFlight;
            && (key in now ==> Sound(now[key]))
            && (key in s.inFlight && key in now ==> Follows(s.inFlight[key], now[key], TicksIn(e, key)))
  {
    hide ReportAll, Sound, Fuel, Severe, CallDiag, Poll;
    match e
    case Reported(severity, inputs) =>
      if |inputs| == |cfg.profiles| {
        ReportAllFuel(cfg, s, inputs, |inputs|, key);
      }
    case Ticked(k, input) =>
      if key in s.inFlight {
        TickFuel(cfg, s, k, input, key);
      } else {
        TickStartsNothing(cfg, s, k, input, key);
      }
    case Rotated(dir) =>
  }

  lemma TickStartsNothing(cfg: Config, s: State, k: string, input: TickInput, key: string)
    requires key !in s.inFlight
    ensures key !in Tick(cfg, s, k, input).inFlight
  {
    hide CallDiag, Poll;
    if k in s.inFlight {
      var ctx := s.inFlight[k];
      CallDiagOthers(WithContext(s, k, ctx.(wait := ctx.wait - 1)), k, input.diag, input.at, key);
      PollFuel(cfg, WithContext(s, k, ctx.(elapsed := ctx.elapsed + 1)), k, input.poll, input.at);
    }
  }

  ghost predicate AllSound(s: State) {
    forall k :: k in s.inFlight ==> Sound(s.inFlight[k])
  }

  // ---------------------------------------------------------------- whole runs

  /** In every reachable state no context has made more than R + 1 calls, none waits longer than its
      backoff or polls beyond its timeout. */
  lemma {:induction false} RunStaysSound(cfg: Config, s: State, events: seq<Event>)
    requires AllSound(s)
    ensures AllSound(Run(cfg, s, events))
  {
    hide Step, Sound;
    if events != [] {
      var n := |events| - 1;
      RunStaysSound(cfg, s, events[..n]);
      forall k | k in Run(cfg, s, events).inFlight ensures Sound(Run(cfg, s, events).inFlight[k]) {
        StepFuel(cfg, Run(cfg, s, events[..n]), events[n], k);
      }
    }
  }

  function TickCount(events: seq<Event>, key: string): nat {
    if events == [] then 0 else TickCount(events[..|events| - 1], key) + TicksIn(events[|events| - 1], key)
  }

  ghost predicate StaysInFlight(cfg: Config, s: State, events: seq<Event>, key: string) {
    forall i :: 0 <= i <= |events| ==> key in Run(cfg, s, events[..i]).inFlight
  }

  lemma {:induction false} FuelBurns(cfg: Config, s: State, events: seq<Event>, key: string)
    requires AllSound(s) && StaysInFlight(cfg, s, events, key)
    ensures key in s.inFlight && key in Run(cfg, s, events).inFlight
    ensures Follows(s.inFlight[key], Run(cfg, s, events).inFlight[key], TickCount(events, key))
  {
    hide Step, Sound, Fuel;
    assert events[..0] == [] && events[..|events|] == events;
    assert key in Run(cfg, s, events[..0]).inFlight && key in Run(cfg, s, events[..|events|]).inFlight;
    if events != [] {
      var n := |events| - 1;
      assert StaysInFlight(cfg, s, events[..n], key) by {
        forall i | 0 <= i <= n ensures key in Run(cfg, s, events[..n][..i]).inFlight {
          assert events[..n][..i] == events[..i];
        }
      }
      FuelBurns(cfg, s, events[..n], key);
      RunStaysSound(cfg, s, events[..n]);
      StepFuel(cfg, Run(cfg, s, events[..n]), events[n], key);
    }
  }

  /** Whatever the provider answers, a collection is gone within B * (2^R - 1) + max(1, T) ticks. */
  lemma BoundedLifetime(cfg: Config, s: State, events: seq<Event>, key: string)
    requires AllSound(s) && StaysInFlight(cfg, s, events, key)
    ensures key in s.inFlight && TickCount(events, key) < MaxTicks(s.inFlight[key].profile.retrieval)
    ensures key in Run(cfg, s, events).inFlight
         && Run(cfg, s, events).inFlight[key].attempt <= Retries0(s.inFlight[key].profile.retrieval) + 1
  {
    hide Run, Step, Fuel, MaxTicks, Backoff;
    FuelBurns(cfg, s, events, key);
    SoundFuel(s.inFlight[key]);
    SoundFuel(Run(cfg, s, events).inFlight[key]);
  }

  // The bound is exact.

  lemma {:induction false} RunCons(cfg: Config, s: State, e: Event, events: seq<Event>)
    ensures Run(cfg, s, [e] + events) == Run(cfg, Step(cfg, s, e), events)
    decreases |events|
  {
    hide Step;
    var all := [e] + events;
    if events == [] {
      assert all[..0] == [] && all[0] == e;
      assert Run(cfg, s, all) == Step(cfg, Run(cfg, s, all[..0]), e);
    } else {
      var n := |events| - 1;
      RunCons(cfg, s, e, events[..n]);
      assert all[..|all| - 1] == [e] + events[..n];
    }
  }

  lemma {:induction false} TickCountCons(e: Event, events: seq<Event>, key: string)
    ensures TickCount([e] + events, key) == TicksIn(e, key) + TickCount(events, key)
    decreases |events|
  {
    var all := [e] + events;
    if events == [] {
      assert all[..0] == [];
      assert TickCount(all, key) == TickCount(all[..0], key) + TicksIn(e, key);
    } else {
      TickCountCons(e, events[..|events| - 1], key);
      assert all[..|all| - 1] == [e] + events[..|events| - 1];
    }
  }

  lemma StaysCons(cfg: Config, s: State, e: Event, events: seq<Event>, key: string)
    requires key in s.inFlight && StaysInFlight(cfg, Step(cfg, s, e), events, key)
    ensures StaysInFlight(cfg, s, [e] + events, key)
  {
    hide Step;
    var all := [e] + events;
    forall i | 0 <= i <= |all| ensures key in Run(cfg, s, all[..i]).inFlight {
      if i > 0 {
        assert all[..i] == [e] + events[..i - 1];
        RunCons(cfg, s, e, events[..i - 1]);
      }
    }
  }

  /** The reply that keeps a context going longest. */
  function Stalling(ctx: Context): TickInput {
    TickInput(if ctx.attempt < Retries0(ctx.profile.retrieval) then BusError("Unavailable") else Accepted, InProgress,
              0)
  }

  lemma StallingTick(cfg: Config, s: State, key: string)
    requires key in s.inFlight && Sound(s.inFlight[key]) && Fuel(s.inFlight[key]) > 1
    ensures var now := Step(cfg, s, Ticked(key, Stalling(s.inFlight[key]))).inFlight;
            key in now && Sound(now[key]) && Fuel(now[key]) == Fuel(s.inFlight[key]) - 1
  {
    hide Pow2, BaseSecs, MaxTicks, Cleanup, FailContext, Budget;
    var ctx := s.inFlight[key];
    var r := ctx.profile.retrieval;
    BudgetShrinks(r, ctx.attempt);
    BudgetAtEnd(r);
    BackoffPositive(r, ctx.attempt + 1);
    assert Contains("Unavailable", "Unavailable");
  }

  lemma BudgetAtEnd(r: Retrieval)
    ensures Budget(r, Retries0(r)) == PollSecs(r)
  {
  }

  /** For every context there are replies that keep it in flight for one tick less than its fuel;
      a fresh one has the whole bound as its fuel where the first call is turned away or no retry
      is allowed. */
  lemma {:induction false} LifetimeIsReached(cfg: Config, s: State, key: string) returns (events: seq<Event>)
    requires key in s.inFlight && Sound(s.inFlight[key])
    ensures StaysInFlight(cfg, s, events, key) && TickCount(events, key) == Fuel(s.inFlight[key]) - 1
    decreases Fuel(s.inFlight[key])
  {
    hide Step, Sound, Fuel;
    SoundFuel(s.inFlight[key]);
    if Fuel(s.inFlight[key]) <= 1 {
      events := [];
      assert forall i :: 0 <= i <= |events| ==> events[..i] == [];
    } else {
      var e := Ticked(key, Stalling(s.inFlight[key]));
      StallingTick(cfg, s, key);
      var rest := LifetimeIsReached(cfg, Step(cfg, s, e), key);
      events := [e] + rest;
      StaysCons(cfg, s, e, rest, key);
      TickCountCons(e, rest, key);
    }
  }

  /** The fuel a collection starts with, by the first reply. */
  lemma FreshFuel(cfg: Config, s: State, p: Profile, component: string, code: nat, r: ReportInput)
    requires var key := MakeKey(p.dump.name, component); key !in s.inFlight && r.dirMade && r.fd >= 0
    ensures var now := Collect(cfg, s, p, component, code, r).inFlight; var key := MakeKey(p.dump.name, component);
            && (r.diag.Accepted? ==> key in now && Fuel(now[key]) == PollSecs(p.retrieval))
            && (r.diag == BusError("Unavailable") ==>
                  && (key in now <==> p.retrieval.maxRetries >= 1)
                  && (key in now ==> Fuel(now[key]) == MaxTicks(p.retrieval)))
  {
    hide Pow2, BaseSecs, MaxTicks, FailContext, Budget, MakeKey, FileName;
    BudgetShrinks(p.retrieval, 0);
    Pow2Step(0);
    assert Contains("Unavailable", "Unavailable");
  }

  // ---------------------------------------------------------------- integer width

  lemma LargestBase(delay: int)
    requires delay <= INT32_MAX
    ensures BaseSecs(Retrieval(0, 0, delay)) <= 2147483
  {
  }

  lemma PowersToTen()
    ensures Pow2(9) == 512 && Pow2(10) == 1024
  {
    assert Pow2(5) == 32;
    assert Pow2(9) == 16 * Pow2(5);
  }

  /** With an int delay every backoff up to the retry ceiling fits an int, and exactly up to a
      ceiling of ten. */
  lemma BackoffFitsIff(ceiling: nat)
    ensures (forall delay: int, attempt: nat :: delay <= INT32_MAX && 1 <= attempt <= ceiling ==>
               Backoff(Retrieval(0, 0, delay), attempt) <= INT32_MAX)
       <==> ceiling <= 10
  {
    hide Pow2, BaseSecs;
    PowersToTen();
    if ceiling <= 10 {
      forall delay: int, attempt: nat | delay <= INT32_MAX && 1 <= attempt <= ceiling
        ensures Backoff(Retrieval(0, 0, delay), attempt) <= INT32_MAX
      {
        LargestBase(delay);
        Pow2Grows(attempt - 1, 9);
        Scale(BaseSecs(Retrieval(0, 0, delay)), Pow2(attempt - 1), 512);
        Scale(512, BaseSecs(Retrieval(0, 0, delay)), 2147483);
      }
    } else {
      BaseOfLargest();
      assert Backoff(Retrieval(0, 0, INT32_MAX), 11) == 2147483 * 1024;
    }
  }

  lemma BaseOfLargest()
    ensures BaseSecs(Retrieval(0, 0, INT32_MAX)) == 2147483
  {
  }
}

/** Device-dump collection: one context per profile and component, driven by event reports and
    one-second timer ticks. Replies, file reads, clock reads and descriptors are inputs. */
module DumpHandler {
  import opened Text
  import opened DumpPaths
  import opened DumpStore

  datatype Retrieval = Retrieval(timeoutSecs: int, maxRetries: int, retryDelayMs: int)

  datatype Profile = Profile(dump: DumpProfile, retrieval: Retrieval, windowSecs: int)

  datatype Config = Config(base: string, profiles: seq<Profile>)

  datatype Phase = AwaitingGetDiag | RetryWaiting | PollingStatus

  /** tempPath is the plain form of the temporary file's path. */
  datatype Context = Context(profile: Profile, component: string, code: nat, ts: int, tempPath: string, fd: int,
                             phase: Phase, attempt: nat, wait: int, elapsed: nat)

  datatype Status = SUCCESS | FAILED

  /** A row of DeviceDumpRecords and a row of DeviceDumpFailures. */
  datatype Row = Row(status: Status, profile: string, component: string, code: nat, eventTime: int, completed: int,
                     path: string, size: nat, attempts: nat, stage: string, detail: string)

  datatype Failure = Failure(at: int, profile: string, component: string, code: nat, stage: string, detail: string,
                             attempts: nat)

  /** What the journal says beyond the two outcome files. */
  datatype Note = Started(key: string, at: int) | EndedSilently(key: string)

  /** dir is the live window directory; open is the descriptor table; strayCloses counts close()
      calls on a descriptor not in it. */
  datatype State = State(dir: string, inFlight: map<string, Context>, debounce: map<string, int>, open: set<int>,
                         strayCloses: nat, store: Contents, rows: seq<Row>, failures: seq<Failure>, journal: seq<Note>)

  // ---------------------------------------------------------------- inputs

  datatype DiagReply = Accepted | BusError(what: string) | OtherError(what: string)

  datatype FileRead = Unopenable | NoSize | ReadThrows | Bytes(size: nat)

  /** Where an exception leaves the completion, if anywhere. */
  datatype Fault = NoFault | BeforeStore | AfterStore | AfterRow

  datatype Completion = Completion(read: FileRead, accepts: bool, write: WriteOutcome, fault: Fault, what: string,
                                   failedAt: int, rowAt: int, doneAt: int)

  datatype PollReply = Done(completion: Completion) | InProgress | OtherStatus(text: string) | Throws(what: string)

  datatype TickInput = TickInput(diag: DiagReply, poll: PollReply, at: int)

  datatype Match = NoMatch | UnknownDevice | Matched(component: string, code: nat)

  datatype ReportInput = ReportInput(matched: Match, accepts: bool, checkAt: int, startAt: int, failedAt: int,
                                     dirMade: bool, fd: int, diag: DiagReply)

  datatype Event =
    | Reported(severity: string, inputs: seq<ReportInput>)
    | Ticked(key: string, input: TickInput)
    | Rotated(dir: string)

  // ---------------------------------------------------------------- specification

  function MakeKey(profile: string, component: string): string {
    profile + ":" + component
  }

  function Pow2(n: nat): nat {
    if n == 0 then 1 else 2 * Pow2(n - 1)
  }

  /** std::max(1, retryDelayMs / 1000): a negative quotient gives 1 however it is rounded. */
  function BaseSecs(r: Retrieval): nat {
    if r.retryDelayMs / 1000 >= 1 then r.retryDelayMs / 1000 else 1
  }

  function Backoff(r: Retrieval, attempt: nat): nat
    requires attempt > 0
  {
    BaseSecs(r) * Pow2(attempt - 1)
  }

  /** close(2). */
  function Close(s: State, fd: int): State {
    if fd in s.open then s.(open := s.open - {fd}) else s.(strayCloses := s.strayCloses + 1)
  }

  /** recordCollectionFailure(): one row in each outcome file. */
  function Fail(s: State, profile: string, component: string, code: nat, stage: string, detail: string, attempts: nat,
                at: int): State {
    s.(failures := s.failures + [Failure(at, profile, component, code, stage, detail, attempts)],
       rows := s.rows + [Row(FAILED, profile, component, code, at, at, "", 0, attempts, stage, detail)])
  }

  function FailContext(s: State, ctx: Context, stage: string, detail: string, attempts: nat, at: int): State {
    Fail(s, ctx.profile.dump.name, ctx.component, ctx.code, stage, detail, attempts, at)
  }

  function RemoveFile(s: State, path: string): State {
    s.(store := s.store.(files := s.store.files - {path}))
  }

  /** cleanupContext() */
  function Cleanup(s: State, key: string): State {
    if key !in s.inFlight then s
    else
      var ctx := s.inFlight[key];
      var closed := if ctx.fd >= 0 then Close(s, ctx.fd) else s;
      RemoveFile(closed, ctx.tempPath).(inFlight := s.inFlight - {key})
  }

  function WithContext(s: State, key: string, ctx: Context): State {
    s.(inFlight := s.inFlight[key := ctx])
  }

  predicate Retries(ctx: Context, reply: DiagReply) {
    reply.BusError? && Contains(reply.what, "Unavailable") && ctx.attempt <= ctx.profile.retrieval.maxRetries
  }

  /** callGetDiagnostics() */
  function CallDiag(s: State, key: string, reply: DiagReply, at: int): State {
    if key !in s.inFlight then s
    else
      var ctx := s.inFlight[key].(attempt := s.inFlight[key].attempt + 1);
      if reply.Accepted? then WithContext(s, key, ctx.(phase := PollingStatus, elapsed := 0))
      else if Retries(ctx, reply) then
        WithContext(s, key, ctx.(phase := RetryWaiting, wait := Backoff(ctx.profile.retrieval, ctx.attempt)))
      else
        Cleanup(FailContext(WithContext(s, key, ctx), ctx, "GetDiagnostics", reply.what, ctx.attempt, at), key)
  }

  /** Where a dump is stored while dir is the live directory. */
  function PathOf(cfg: Config, dir: string, ctx: Context): string {
    PathIn(cfg.base, dir,
           FileName(ctx.profile.dump.section, ctx.component, ctx.profile.dump.storage.filePrefix, ctx.ts))
  }

  /** The file that is. */
  function FileOf(cfg: Config, dir: string, ctx: Context): string {
    FileIn(cfg.base, dir,
           FileName(ctx.profile.dump.section, ctx.component, ctx.profile.dump.storage.filePrefix, ctx.ts))
  }

  /** The path as recorded: without the base path and one slash. */
  function RelativeTo(base: string, path: string): string {
    if StartsWith(path, base) then
      var rest := path[|base|..];
      if rest != "" && rest[0] == '/' then rest[1..] else rest
    else path
  }

  const PRE_CHECK := "partition pre-check rejected (see journal for detail)"
  const POST_CHECK := "partition rejected post-collection (see journal for detail)"
  const STORE_FAILED := "store() returned false (see journal for serialize/rename detail)"

  function TimedOut(timeoutSecs: int): string {
    "async operation timed out after " + IntToString(timeoutSecs) + "s"
  }

  /** onDumpComplete() and whether it throws. */
  function Complete(cfg: Config, s: State, ctx: Context, c: Completion): (State, bool) {
    var key := MakeKey(ctx.profile.dump.name, ctx.component);
    if !c.read.Bytes? || c.read.size == 0 then (s.(journal := s.journal + [EndedSilently(key)]), false)
    else if c.fault.BeforeStore? then (s, true)
    else if !c.accepts then (FailContext(s, ctx, "DiskSpaceCheck", POST_CHECK, 0, c.failedAt), false)
    else
      var s1 := s.(store := Stored(s.store, ctx.profile.dump, FileOf(cfg, s.dir, ctx), ctx.ts, c.write, {}));
      if !c.write.Written? then (FailContext(s1, ctx, "StoreWriteFailed", STORE_FAILED, 0, c.failedAt), false)
      else if c.fault.AfterStore? then (s1, true)
      else
        var s2 := s1.(rows := s1.rows + [SuccessRow(cfg, s.dir, ctx, c)]);
        if c.fault.AfterRow? then (s2, true) else (s2.(debounce := s2.debounce[key := c.doneAt]), false)
  }

  function SuccessRow(cfg: Config, dir: string, ctx: Context, c: Completion): Row
    requires c.read.Bytes?
  {
    Row(SUCCESS, ctx.profile.dump.name, ctx.component, ctx.code, ctx.ts, c.rowAt,
        RelativeTo(cfg.base, PathOf(cfg, dir, ctx)), c.read.size, ctx.attempt, "", "")
  }

  /** pollAsyncStatus() */
  function Poll(cfg: Config, s: State, key: string, reply: PollReply, at: int): State {
    if key !in s.inFlight then s
    else
      var ctx := s.inFlight[key];
      match reply
      case Done(c) =>
        var closing := ctx.(fd := -1);
        var (s1, threw) := Complete(cfg, WithContext(Close(s, ctx.fd), key, closing), closing, c);
        Cleanup(if threw then FailContext(s1, ctx, "AsyncStatus", c.what, ctx.attempt, at) else s1, key)
      case InProgress =>
        if ctx.elapsed >= ctx.profile.retrieval.timeoutSecs
        then Cleanup(FailContext(s, ctx, "AsyncStatus", TimedOut(ctx.profile.retrieval.timeoutSecs), ctx.attempt, at),
                     key)
        else s
      case OtherStatus(text) => Cleanup(FailContext(s, ctx, "AsyncStatus", text, ctx.attempt, at), key)
      case Throws(what) => Cleanup(FailContext(s, ctx, "AsyncStatus", what, ctx.attempt, at), key)
  }

  /** tickContext() */
  function Tick(cfg: Config, s: State, key: string, input: TickInput): State {
    if key !in s.inFlight then s
    else
      var ctx := s.inFlight[key];
      match ctx.phase
      case RetryWaiting =>
        var s1 := WithContext(s, key, ctx.(wait := ctx.wait - 1));
        if ctx.wait - 1 > 0 then s1 else CallDiag(s1, key, input.diag, input.at)
      case PollingStatus =>
        Poll(cfg, WithContext(s, key, ctx.(elapsed := ctx.elapsed + 1)), key, input.poll, input.at)
      case AwaitingGetDiag => s
  }

  function NewContext(cfg: Config, dir: string, p: Profile, component: string, code: nat, ts: int, fd: int): Context {
    var name := FileName(p.dump.section, component, p.dump.storage.filePrefix, ts);
    Context(p, component, code, ts, TempPath(FileIn(cfg.base, dir, name)), fd, AwaitingGetDiag, 0, 0, 0)
  }

  /** collectDump() */
  function Collect(cfg: Config, s: State, p: Profile, component: string, code: nat, r: ReportInput): State {
    var key := MakeKey(p.dump.name, component);
    if key in s.inFlight || !r.dirMade || r.fd < 0 then s
    else CallDiag(Opened(cfg, s, p, component, code, r), key, r.diag, r.failedAt)
  }

  /** The context is registered, its temporary file and descriptor are open. */
  function Opened(cfg: Config, s: State, p: Profile, component: string, code: nat, r: ReportInput): State {
    var key := MakeKey(p.dump.name, component);
    var ctx := NewContext(cfg, s.dir, p, component, code, r.startAt, r.fd);
    s.(inFlight := s.inFlight[key := ctx], open := s.open + {r.fd}, journal := s.journal + [Started(key, r.startAt)],
       store := s.store.(files := s.store.files[ctx.tempPath := 0]))
  }

  /** The window of the first profile with that name. */
  function WindowOf(profiles: seq<Profile>, name: string): int {
    if profiles == [] then 0
    else if profiles[0].dump.name == name then profiles[0].windowSecs
    else WindowOf(profiles[1..], name)
  }

  /** debounceCheck() */
  predicate MayStart(cfg: Config, s: State, name: string, component: string, now: int) {
    var key := MakeKey(name, component);
    var window := WindowOf(cfg.profiles, name);
    window <= 0 || key !in s.debounce || now - s.debounce[key] >= window
  }

  /** One profile of onEvent(). */
  function Report(cfg: Config, s: State, p: Profile, r: ReportInput): State {
    if !r.matched.Matched? || !MayStart(cfg, s, p.dump.name, r.matched.component, r.checkAt) then s
    else if !r.accepts then
      Fail(s, p.dump.name, r.matched.component, r.matched.code, "DiskSpaceCheck", PRE_CHECK, 0, r.failedAt)
    else Collect(cfg, s, p, r.matched.component, r.matched.code, r)
  }

  /** onEvent() over the first profiles. */
  function ReportAll(cfg: Config, s: State, inputs: seq<ReportInput>, n: nat): State
    requires n <= |inputs| && n <= |cfg.profiles|
    decreases n, |inputs|
  {
    if n == 0 then s else Report(cfg, ReportAll(cfg, s, inputs, n - 1), cfg.profiles[n - 1], inputs[n - 1])
  }

  predicate Severe(severity: string) {
    Contains(severity, "Critical") || Contains(severity, "Warning")
  }

  function Step(cfg: Config, s: State, e: Event): State {
    match e
    case Reported(severity, inputs) =>
      if !Severe(severity) || |inputs| != |cfg.profiles| then s
      else ReportAll(cfg, s, inputs, |inputs|)
    case Ticked(key, input) => Tick(cfg, s, key, input)
    case Rotated(dir) => s.(dir := dir)
  }

  function Run(cfg: Config, s: State, events: seq<Event>): State {
    if events == [] then s else Step(cfg, Run(cfg, s, events[..|events| - 1]), events[|events| - 1])
  }

  /** The completion hands its dump to the store. */
  predicate ReachesStore(c: Completion) {
    c.read.Bytes? && c.read.size > 0 && !c.fault.BeforeStore? && c.accepts
  }

  /** A report that matches one profile alone. */
  function Only(cfg: Config, i: nat, r: ReportInput): (inputs: seq<ReportInput>)
    ensures |inputs| == |cfg.profiles|
  {
    seq(|cfg.profiles|, j => if j == i then r else ReportInput(NoMatch, false, 0, 0, 0, false, -1, Accepted))
  }

  lemma {:induction false} OnlyReports(cfg: Config, s: State, i: nat, r: ReportInput, n: nat)
    requires i < |cfg.profiles| && n <= |cfg.profiles|
    ensures ReportAll(cfg, s, Only(cfg, i, r), n) == if i < n then Report(cfg, s, cfg.profiles[i], r) else s
  {
    hide Opened, MayStart, Collect;
    if n > 0 {
      OnlyReports(cfg, s, i, r, n - 1);
    }
  }

  lemma CriticalIsSevere()
    ensures Severe("Critical")
  {
  }

  lemma StartedAccepted(cfg: Config, s: State, p: Profile, component: string, r: ReportInput)
    requires var key := MakeKey(p.dump.name, component); key !in s.inFlight && key !in s.debounce
    requires r.matched == Matched(component, 0) && r.accepts && r.dirMade && r.fd >= 0 && r.diag.Accepted?
    ensures var ctx := NewContext(cfg, s.dir, p, component, 0, r.startAt, r.fd);
            var key := MakeKey(p.dump.name, component);
            && Report(cfg, s, p, r).inFlight == s.inFlight[key := ctx.(attempt := 1, phase := PollingStatus)]
            && ctx.tempPath == TempPath(FileOf(cfg, s.dir, ctx.(attempt := 1, phase := PollingStatus)))
    ensures Report(cfg, s, p, r).dir == s.dir && Report(cfg, s, p, r).rows == s.rows
    ensures Report(cfg, s, p, r).debounce == s.debounce
  {
    hide MakeKey, FileName, WindowOf, FileIn;
  }

  lemma DropUpdated(contexts: map<string, Context>, key: string, ctx: Context)
    ensures contexts[key := ctx] - {key} == contexts - {key}
  {
  }

  // ---------------------------------------------------------------- the handler

  class DumpContext {
    const profile: Profile
    const component: string
    const code: nat
    const ts: int
    const tempPath: string
    var fd: int
    var phase: Phase
    var attempt: nat
    var wait: int
    var elapsed: nat

    function Value(): Context
      reads this
    {
      Context(profile, component, code, ts, Plain(tempPath), fd, phase, attempt, wait, elapsed)
    }

    constructor (profile: Profile, component: string, code: nat, ts: int, tempPath: string, fd: int)
      ensures Value() == Context(profile, component, code, ts, Plain(tempPath), fd, AwaitingGetDiag, 0, 0, 0)
    {
      this.profile, this.component, this.code, this.ts := profile, component, code, ts;
      this.tempPath, this.fd := tempPath, fd;
      phase, attempt, wait, elapsed := AwaitingGetDiag, 0, 0, 0;
    }
  }

  class DeviceDumpHandler {
    const cfg: Config
    const store: DeviceDumpStore
    var dir: string
    var inFlight: map<string, DumpContext>
    var debounce: map<string, int>
    var open: set<int>
    var strayCloses: nat
    var rows: seq<Row>
    var failures: seq<Failure>
    var journal: seq<Note>

    /** Every context belongs to one key. */
    ghost predicate Valid()
      reads this
    {
      && store.basePath == cfg.base
      && forall j, k :: j in inFlight && k in inFlight && inFlight[j] == inFlight[k] ==> j == k
    }

    ghost function Contexts(): (c: map<string, Context>)
      reads this`inFlight, inFlight.Values
      ensures c.Keys == inFlight.Keys
    {
      map k | k in inFlight :: inFlight[k].Value()
    }

    lemma ContextAt(key: string)
      requires key in inFlight
      ensures key in Contexts() && Contexts()[key] == inFlight[key].Value()
    {
    }

    /** Updating one context changes one entry. */
    twostate lemma OneChanged(key: string)
      requires Valid() && inFlight == old(inFlight) && key in inFlight
      requires forall o :: o in inFlight.Values && o != inFlight[key] ==> o.Value() == old(o.Value())
      ensures Contexts() == old(Contexts())[key := inFlight[key].Value()]
    {
    }

    ghost function Value(): State
      reads this, store, inFlight.Values
    {
      State(dir, Contexts(), debounce, open, strayCloses, store.Value(), rows, failures, journal)
    }

    constructor (cfg: Config, store: DeviceDumpStore, dir: string)
      requires store.basePath == cfg.base
      ensures Valid() && this.cfg == cfg && this.store == store
      ensures Value() == State(dir, map[], map[], {}, 0, store.Value(), [], [], [])
    {
      this.cfg, this.store, this.dir := cfg, store, dir;
      inFlight, debounce, open, strayCloses := map[], map[], {}, 0;
      rows, failures, journal := [], [], [];
    }

    method CloseFd(fd: int)
      modifies this`open, this`strayCloses
      ensures Value() == Close(old(Value()), fd)
    {
      if fd in open {
        open := open - {fd};
      } else {
        strayCloses := strayCloses + 1;
      }
    }

    method RecordCollectionFailure(profile: string, component: string, code: nat, stage: string, detail: string,
                                   attempts: nat, at: int)
      modifies this`failures, this`rows
      ensures Value() == Fail(old(Value()), profile, component, code, stage, detail, attempts, at)
    {
      failures := failures + [Failure(at, profile, component, code, stage, detail, attempts)];
      rows := rows + [Row(FAILED, profile, component, code, at, at, "", 0, attempts, stage, detail)];
    }

    method CleanupContext(key: string)
      requires Valid()
      modifies this, store, inFlight.Values
      ensures Valid() && Value() == Cleanup(old(Value()), key)
      ensures inFlight.Values <= old(inFlight.Values)
    {
      hide Contexts;
      if key !in inFlight {
        return;
      }
      var ctx := inFlight[key];
      ContextAt(key);
      CloseContext(key);
      store.files := store.files - {Plain(ctx.tempPath)};
      DropUpdated(old(Contexts()), key, old(ctx.Value()).(fd := -1));
      Erase(key);
    }

    method CloseContext(key: string)
      requires Valid() && key in inFlight
      modifies this`open, this`strayCloses, inFlight[key]
      ensures var ctx := old(inFlight[key].Value());
              Value() == if ctx.fd >= 0
                         then WithContext(Close(old(Value()), ctx.fd), key, ctx.(fd := -1))
                         else old(Value())
    {
      hide Contexts;
      var ctx := inFlight[key];
      if ctx.fd >= 0 {
        CloseFd(ctx.fd);
        ctx.fd := -1;
        OneChanged(key);
      }
    }

    method Erase(key: string)
      requires Valid() && key in inFlight
      modifies this`inFlight
      ensures Valid() && Contexts() == old(Contexts()) - {key}
      ensures inFlight.Values <= old(inFlight.Values)
    {
      inFlight := inFlight - {key};
    }

    method CallGetDiagnostics(key: string, reply: DiagReply, at: int)
      requires Valid()
      modifies this, store, inFlight.Values
      ensures Valid() && Value() == CallDiag(old(Value()), key, reply, at)
      ensures inFlight.Values <= old(inFlight.Values)
    {
      hide Contexts, Cleanup, Backoff, Contains, Plain;
      if key !in inFlight {
        return;
      }
      var ctx := inFlight[key];
      ContextAt(key);
      ctx.attempt := ctx.attempt + 1;
      if reply.Accepted? {
        ctx.phase := PollingStatus;
        ctx.elapsed := 0;
        OneChanged(key);
      } else if reply.BusError? && Contains(reply.what, "Unavailable")
                && ctx.attempt <= ctx.profile.retrieval.maxRetries {
        ctx.phase := RetryWaiting;
        ctx.wait := Backoff(ctx.profile.retrieval, ctx.attempt);
        OneChanged(key);
      } else {
        OneChanged(key);
        RecordCollectionFailure(ctx.profile.dump.name, ctx.component, ctx.code, "GetDiagnostics", reply.what,
                                ctx.attempt, at);
        CleanupContext(key);
      }
    }

    method OnDumpComplete(ctx: Context, c: Completion) returns (threw: bool)
      requires Valid()
      modifies this, store
      ensures Valid() && inFlight == old(inFlight)
      ensures (Value(), threw) == Complete(cfg, old(Value()), ctx, c)
    {
      hide Stored, RelativeTo, MakeKey, Contexts, Plain;
      threw := false;
      var key := MakeKey(ctx.profile.dump.name, ctx.component);
      if !c.read.Bytes? {
        journal := journal + [EndedSilently(key)];
        return;
      }
      if c.read.size == 0 {
        journal := journal + [EndedSilently(key)];
        return;
      }
      if c.fault.BeforeStore? {
        return true;
      }
      if !c.accepts {
        RecordCollectionFailure(ctx.profile.dump.name, ctx.component, ctx.code, "DiskSpaceCheck", POST_CHECK, 0,
                                c.failedAt);
        return;
      }
      var stored := store.Store(ctx.profile.dump, dir, ctx.component, ctx.ts, c.write, {});
      if !stored {
        RecordCollectionFailure(ctx.profile.dump.name, ctx.component, ctx.code, "StoreWriteFailed", STORE_FAILED, 0,
                                c.failedAt);
        return;
      }
      if c.fault.AfterStore? {
        return true;
      }
      var fullPath := store.BuildStoragePath(dir, ctx.profile.dump, ctx.component, ctx.ts);
      rows := rows + [Row(SUCCESS, ctx.profile.dump.name, ctx.component, ctx.code, ctx.ts, c.rowAt,
                          RelativeTo(cfg.base, fullPath), c.read.size, ctx.attempt, "", "")];
      if c.fault.AfterRow? {
        return true;
      }
      debounce := debounce[key := c.doneAt];
    }

    method PollAsyncStatus(key: string, reply: PollReply, at: int)
      requires Valid()
      modifies this, store, inFlight.Values
      ensures Valid() && Value() == Poll(cfg, old(Value()), key, reply, at)
      ensures inFlight.Values <= old(inFlight.Values)
    {
      hide Contexts, Cleanup, Complete, TimedOut, Plain;
      if key !in inFlight {
        return;
      }
      var ctx := inFlight[key];
      ContextAt(key);
      var failed, detail := true, "";
      match reply {
        case Done(c) =>
          CloseFd(ctx.fd);
          ctx.fd := -1;
          OneChanged(key);
          failed := OnDumpComplete(ctx.Value(), c);
          detail := c.what;
        case InProgress =>
          if ctx.elapsed < ctx.profile.retrieval.timeoutSecs {
            return;
          }
          detail := TimedOut(ctx.profile.retrieval.timeoutSecs);
        case OtherStatus(text) =>
          detail := text;
        case Throws(what) =>
          detail := what;
      }
      if failed {
        RecordCollectionFailure(ctx.profile.dump.name, ctx.component, ctx.code, "AsyncStatus", detail, ctx.attempt, at);
      }
      CleanupContext(key);
    }

    method TickContext(key: string, input: TickInput)
      requires Valid()
      modifies this, store, inFlight.Values
      ensures Valid() && Value() == Tick(cfg, old(Value()), key, input)
      ensures inFlight.Values <= old(inFlight.Values)
    {
      hide Contexts, CallDiag, Poll, Plain;
      if key !in inFlight {
        return;
      }
      var ctx := inFlight[key];
      ContextAt(key);
      if ctx.phase == RetryWaiting {
        ctx.wait := ctx.wait - 1;
        OneChanged(key);
        if ctx.wait > 0 {
          return;
        }
        CallGetDiagnostics(key, input.diag, input.at);
      } else if ctx.phase == PollingStatus {
        ctx.elapsed := ctx.elapsed + 1;
        OneChanged(key);
        PollAsyncStatus(key, input.poll, input.at);
      }
    }

    method Register(key: string, ctx: DumpContext)
      requires Valid() && ctx !in inFlight.Values
      modifies this`inFlight
      ensures Valid() && Contexts() == old(Contexts())[key := ctx.Value()]
      ensures inFlight.Values <= old(inFlight.Values) + {ctx}
    {
      inFlight := inFlight[key := ctx];
    }

    /** The context, its descriptor and its temporary file. */
    method OpenContext(p: Profile, component: string, code: nat, r: ReportInput, tempPath: string)
      requires Valid()
      requires Plain(tempPath) == NewContext(cfg, dir, p, component, code, r.startAt, r.fd).tempPath
      modifies this, store
      ensures Valid() && Value() == Opened(cfg, old(Value()), p, component, code, r)
      ensures fresh(inFlight.Values - old(inFlight.Values))
    {
      hide MakeKey, FileName, Contexts, Plain;
      var key := MakeKey(p.dump.name, component);
      open := open + {r.fd};
      store.files := store.files[Plain(tempPath) := 0];
      journal := journal + [Started(key, r.startAt)];
      var ctx := new DumpContext(p, component, code, r.startAt, tempPath, r.fd);
      Register(key, ctx);
    }

    method CollectDump(p: Profile, component: string, code: nat, r: ReportInput)
      requires Valid()
      modifies this, store, inFlight.Values
      ensures Valid() && Value() == Collect(cfg, old(Value()), p, component, code, r)
      ensures fresh(inFlight.Values - old(inFlight.Values))
    {
      hide CallDiag, MakeKey, FileName, Opened, Contexts, Plain;
      var key := MakeKey(p.dump.name, component);
      if key in inFlight {
        return;
      }
      var tempPath := store.BuildStoragePath(dir, p.dump, component, r.startAt) + ".tmp";
      if !r.dirMade {
        return;
      }
      if r.fd < 0 {
        return;
      }
      PlainTail(store.BuildStoragePath(dir, p.dump, component, r.startAt), ".tmp");
      OpenContext(p, component, code, r, tempPath);
      CallGetDiagnostics(key, r.diag, r.failedAt);
    }

    /** A window expiry makes another directory the live one. */
    method UpdateDirectory(newDir: string)
      modifies this`dir
      ensures Value() == Step(cfg, old(Value()), Rotated(newDir))
    {
      dir := newDir;
    }

    method DebounceCheck(name: string, component: string, now: int) returns (ok: bool)
      ensures ok == MayStart(cfg, Value(), name, component, now)
    {
      for i := 0 to |cfg.profiles|
        invariant WindowOf(cfg.profiles, name) == WindowOf(cfg.profiles[i..], name)
      {
        var p := cfg.profiles[i];
        if p.dump.name == name {
          if p.windowSecs <= 0 {
            return true;
          }
          var key := MakeKey(name, component);
          if key !in debounce {
            return true;
          }
          return now - debounce[key] >= p.windowSecs;
        }
        assert cfg.profiles[i..][1..] == cfg.profiles[i + 1..];
      }
      return true;
    }

    method OnEvent(severity: string, inputs: seq<ReportInput>)
      requires Valid() && |inputs| == |cfg.profiles|
      modifies this, store, inFlight.Values
      ensures Valid() && Value() == Step(cfg, old(Value()), Reported(severity, inputs))
      ensures fresh(inFlight.Values - old(inFlight.Values))
    {
      hide Contains, MayStart, Collect;
      if !Contains(severity, "Critical") && !Contains(severity, "Warning") {
        return;
      }
      for i := 0 to |cfg.profiles|
        invariant Valid() && Value() == ReportAll(cfg, old(Value()), inputs, i)
        invariant fresh(inFlight.Values - old(inFlight.Values))
      {
        var p, r := cfg.profiles[i], inputs[i];
        if r.matched.Matched? {
          var component := r.matched.component;
          var start := DebounceCheck(p.dump.name, component, r.checkAt);
          if start {
            if !r.accepts {
              RecordCollectionFailure(p.dump.name, component, r.matched.code, "DiskSpaceCheck", PRE_CHECK, 0,
                                      r.failedAt);
            } else {
              CollectDump(p, component, r.matched.code, r);
            }
          }
        }
      }
    }
  }
}

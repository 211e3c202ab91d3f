/** Whole runs of the recorder between two boots: samples are stored, errors reported, windows
    expire. What compaction keeps is compared with everything ever stored and logged. */
module CompactorRun {
  import opened Text
  import opened RecordFile
  import opened BookOfErrors
  import opened Compactor
  import opened CompactorRecovery

  /** The disk and the globals, plus the history that the claims are about: every directory
      opened, every directory handed to the engine, every sample stored, by directory and stem. */
  datatype World = World(disk: Disk, boot: string, stamp: nat, clock: nat, expiredAt: nat,
                         stamps: seq<nat>, compacted: seq<string>,
                         written: map<string, map<string, seq<Sample>>>)

  datatype Event =
    | Store(now: nat, stem: string, sample: Sample)
    | ReportError(now: nat, device: string, paramId: nat, errorType: string)
    | Expire(now: nat, stampAt: nat)

  function LiveDir(w: World): string {
    DirectoryName(w.boot, w.stamp)
  }

  function SensorFile(wd: WindowDir, stem: string): Option<RecFile<Sample>> {
    if stem in wd.sensors then Some(wd.sensors[stem]) else None
  }

  function StoreSample(wd: WindowDir, stem: string, x: Sample): WindowDir {
    wd.(sensors := wd.sensors[stem := Append(SensorFile(wd, stem), x).value])
  }

  function History(files: map<string, seq<Sample>>, stem: string): seq<Sample> {
    if stem in files then files[stem] else []
  }

  function Step(cfg: Config, ls: Lister, w: World, e: Event): World {
    match e
    case Store(now, stem, x) =>
      var dir := LiveDir(w);
      if dir in w.disk.dirs && dir in w.written then
        w.(clock := now,
           disk := w.disk.(dirs := w.disk.dirs[dir := StoreSample(w.disk.dirs[dir], stem, x)]),
           written := w.written[dir := w.written[dir][stem := History(w.written[dir], stem) + [x]]])
      else w
    case ReportError(now, device, paramId, errorType) =>
      w.(clock := now,
         disk := w.disk.(errors := Report(w.disk.errors, ErrorRec(w.boot, device, paramId, errorType, now))))
    case Expire(now, stampAt) =>
      var found := GetDirectoryToCompact(w.disk.keeper, 2);
      var dir := DirectoryName(w.boot, stampAt);
      w.(disk := OpenWindow(ExpireWindow(cfg, ls, w.disk), dir),
         stamp := stampAt, clock := stampAt, expiredAt := now,
         stamps := w.stamps + [stampAt],
         compacted := if found.dir != "" then w.compacted + [found.dir] else w.compacted,
         written := w.written[dir := map[]])
  }

  /** Times that stay clear of the 64-bit wrap. */
  predicate InHorizon(cfg: Config, t: nat) {
    t + cfg.windowSecs + cfg.hifiSecs < UINT64_MODULUS
  }

  /** The clock never runs back, a sample carries a time already past, expiries are at least gap
      seconds apart and open their windows in different seconds. How long a window lasts and what
      times its samples carry is open: the first window of a boot outlives its nominal end, and a
      record may be stored again without a refresh. */
  predicate Allowed(cfg: Config, gap: nat, w: World, e: Event) {
    && w.clock <= e.now && InHorizon(cfg, e.now)
    && match e
       case Store(now, _, x) => x.ts <= now
       case ReportError(_, _, _, _) => true
       case Expire(now, stampAt) =>
         && w.expiredAt + gap <= now <= stampAt
         && w.stamp < stampAt && InHorizon(cfg, stampAt)
  }

  function Run(cfg: Config, ls: Lister, w: World, events: seq<Event>): World
    decreases |events|
  {
    if events == [] then w else Run(cfg, ls, Step(cfg, ls, w, events[0]), events[1..])
  }

  ghost predicate AllowedRun(cfg: Config, gap: nat, ls: Lister, w: World, events: seq<Event>)
    decreases |events|
  {
    || events == []
    || (Allowed(cfg, gap, w, events[0]) && AllowedRun(cfg, gap, ls, Step(cfg, ls, w, events[0]), events[1..]))
  }

  // ---------------------------------------------------------------- what should be kept

  predicate Near(cfg: Config, errs: seq<ErrorRec>, boot: string, ts: nat) {
    exists i ::
      && 0 <= i < |errs| && errs[i].bootId == boot
      && errs[i].time - cfg.hifiSecs <= ts <= errs[i].time + cfg.hifiSecs
  }

  /** The samples with a logged error of this boot within the preserve time, in order. */
  function NearErrors(cfg: Config, errs: seq<ErrorRec>, boot: string, samples: seq<Sample>): seq<Sample> {
    if samples == [] then []
    else
      var n := |samples| - 1;
      if Near(cfg, errs, boot, samples[n].ts) then NearErrors(cfg, errs, boot, samples[..n]) + [samples[n]]
      else NearErrors(cfg, errs, boot, samples[..n])
  }

  predicate InWindow(cfg: Config, stamp: nat, ts: nat) {
    stamp <= ts <= stamp + cfg.windowSecs
  }

  /** The samples taken before the nominal end of a window. */
  function WindowOnly(cfg: Config, stamp: nat, samples: seq<Sample>): seq<Sample> {
    if samples == [] then []
    else
      var n := |samples| - 1;
      if InWindow(cfg, stamp, samples[n].ts) then WindowOnly(cfg, stamp, samples[..n]) + [samples[n]]
      else WindowOnly(cfg, stamp, samples[..n])
  }

  /** Samples were stored under the stem in directory i, which has been compacted. */
  predicate Compacted(w: World, i: int, stem: string) {
    && 0 <= i < |w.compacted| && i < |w.stamps|
    && DirName(w, i) in w.written && stem in w.written[DirName(w, i)]
  }

  /** No window was compacted too much or too little, measured against the log as it is now. */
  ghost predicate Exact(cfg: Config, w: World) {
    forall i, stem :: Compacted(w, i, stem) ==>
      && DirName(w, i) in w.disk.dirs
      && WindowOnly(cfg, w.stamps[i], HifiOf(w.disk.dirs[DirName(w, i)], stem))
      == NearErrors(cfg, Records(w.disk.errors), w.boot, WindowOnly(cfg, w.stamps[i], w.written[DirName(w, i)][stem]))
  }

  /** What decides over a sample of the window opened at stamp, in the window or behind its end: an
      error of this boot within the preserve time of the sample, and itself no farther than that
      from the nominal window. */
  predicate KeptBy(cfg: Config, errs: seq<ErrorRec>, boot: string, stamp: nat, ts: nat) {
    exists i ::
      && 0 <= i < |errs| && errs[i].bootId == boot
      && errs[i].time - cfg.hifiSecs <= ts <= errs[i].time + cfg.hifiSecs
      && stamp - cfg.hifiSecs <= errs[i].time <= stamp + cfg.windowSecs + cfg.hifiSecs
  }

  function KeptSamples(cfg: Config, errs: seq<ErrorRec>, boot: string, stamp: nat, samples: seq<Sample>): seq<Sample> {
    if samples == [] then []
    else
      var n := |samples| - 1;
      if KeptBy(cfg, errs, boot, stamp, samples[n].ts)
      then KeptSamples(cfg, errs, boot, stamp, samples[..n]) + [samples[n]]
      else KeptSamples(cfg, errs, boot, stamp, samples[..n])
  }

  /** Every compacted directory holds exactly the samples so decided, by the log as it is now. */
  ghost predicate Fated(cfg: Config, w: World) {
    forall i, stem :: Compacted(w, i, stem) ==>
      && DirName(w, i) in w.disk.dirs
      && HifiOf(w.disk.dirs[DirName(w, i)], stem)
      == KeptSamples(cfg, Records(w.disk.errors), w.boot, w.stamps[i], w.written[DirName(w, i)][stem])
  }

  // ---------------------------------------------------------------- the range filter loses nothing

  ghost predicate SelectedAround(cfg: Config, errs: seq<ErrorRec>, boot: string, least: nat, far: nat, ts: nat) {
    exists i :: 0 <= i < |errs| && Selects(cfg, boot, least, far, errs[i])
      && Sub64(errs[i].time, cfg.hifiSecs) <= ts <= Add64(errs[i].time, cfg.hifiSecs)
  }

  lemma SelectedAroundStep(cfg: Config, errs: seq<ErrorRec>, boot: string, least: nat, far: nat, ts: nat)
    requires errs != []
    ensures var n := |errs| - 1;
            SelectedAround(cfg, errs, boot, least, far, ts) <==>
              SelectedAround(cfg, errs[..n], boot, least, far, ts)
              || (Selects(cfg, boot, least, far, errs[n])
                  && Sub64(errs[n].time, cfg.hifiSecs) <= ts <= Add64(errs[n].time, cfg.hifiSecs))
  {
    hide Selects, Sub64, Add64;
    var n := |errs| - 1;
    if SelectedAround(cfg, errs[..n], boot, least, far, ts) {
      var i :| 0 <= i < n && Selects(cfg, boot, least, far, errs[..n][i])
        && Sub64(errs[..n][i].time, cfg.hifiSecs) <= ts <= Add64(errs[..n][i].time, cfg.hifiSecs);
      assert errs[i] == errs[..n][i];
    }
    if SelectedAround(cfg, errs, boot, least, far, ts) {
      var i :| 0 <= i < |errs| && Selects(cfg, boot, least, far, errs[i])
        && Sub64(errs[i].time, cfg.hifiSecs) <= ts <= Add64(errs[i].time, cfg.hifiSecs);
      if i < n { assert errs[..n][i] == errs[i]; }
    }
  }

  lemma InSomeRangeStep(ranges: seq<Range>, r: Range, ts: nat)
    ensures InSomeRange(ranges + [r], ts) <==> InSomeRange(ranges, ts) || CheckIsInRange(r.start, r.stop, ts)
  {
    var all := ranges + [r];
    assert all[|ranges|] == r;
    if InSomeRange(ranges, ts) {
      var i :| 0 <= i < |ranges| && CheckIsInRange(ranges[i].start, ranges[i].stop, ts);
      assert all[i] == ranges[i];
    }
  }

  lemma {:induction false} SelectErrorsMeaning(cfg: Config, errs: seq<ErrorRec>, boot: string, least: nat, far: nat,
                                               ts: nat)
    ensures InSomeRange(SelectErrors(cfg, errs, boot, least, far), ts)
        <==> SelectedAround(cfg, errs, boot, least, far, ts)
  {
    hide Selects, Sub64, Add64, InSomeRange, SelectedAround;
    if errs == [] {
      NothingSelected(cfg, boot, least, far, ts);
    } else {
      var n := |errs| - 1;
      SelectErrorsMeaning(cfg, errs[..n], boot, least, far, ts);
      SelectedAroundStep(cfg, errs, boot, least, far, ts);
      InSomeRangeStep(SelectErrors(cfg, errs[..n], boot, least, far),
                      Range(Sub64(errs[n].time, cfg.hifiSecs), Add64(errs[n].time, cfg.hifiSecs)), ts);
    }
  }

  lemma NothingSelected(cfg: Config, boot: string, least: nat, far: nat, ts: nat)
    ensures !InSomeRange([], ts) && !SelectedAround(cfg, [], boot, least, far, ts)
  {
  }

  /** The errors of this boot have times the 64-bit arithmetic handles exactly. */
  ghost predicate PlainTimes(cfg: Config, errs: seq<ErrorRec>, boot: string) {
    forall i :: 0 <= i < |errs| && errs[i].bootId == boot ==>
      cfg.hifiSecs <= errs[i].time && errs[i].time + cfg.hifiSecs < UINT64_MODULUS
  }

  /** One error, once the times stay clear of the wrap. */
  lemma OneErrorDecides(cfg: Config, e: ErrorRec, boot: string, least: nat, ts: nat)
    requires cfg.hifiSecs <= least && InHorizon(cfg, least)
    requires e.bootId == boot ==> cfg.hifiSecs <= e.time && e.time + cfg.hifiSecs < UINT64_MODULUS
    ensures Selects(cfg, boot, least, least + cfg.windowSecs, e)
            && Sub64(e.time, cfg.hifiSecs) <= ts <= Add64(e.time, cfg.hifiSecs)
       <==> && e.bootId == boot && e.time - cfg.hifiSecs <= ts <= e.time + cfg.hifiSecs
            && least - cfg.hifiSecs <= e.time <= least + cfg.windowSecs + cfg.hifiSecs
  {
  }

  /** The fate of every sample, in the window or not: the selected ranges hit it exactly if some error
      decides so. */
  lemma KeptIff(cfg: Config, errs: seq<ErrorRec>, boot: string, least: nat, ts: nat)
    requires PlainTimes(cfg, errs, boot) && cfg.hifiSecs <= least && InHorizon(cfg, least)
    ensures InSomeRange(SelectErrors(cfg, errs, boot, least, least + cfg.windowSecs), ts)
        <==> KeptBy(cfg, errs, boot, least, ts)
  {
    hide Selects, Add64, Sub64, InSomeRange, SelectErrors, InHorizon;
    SelectErrorsMeaning(cfg, errs, boot, least, least + cfg.windowSecs, ts);
    forall i | 0 <= i < |errs|
      ensures Selects(cfg, boot, least, least + cfg.windowSecs, errs[i])
              && Sub64(errs[i].time, cfg.hifiSecs) <= ts <= Add64(errs[i].time, cfg.hifiSecs)
         <==> && errs[i].bootId == boot && errs[i].time - cfg.hifiSecs <= ts <= errs[i].time + cfg.hifiSecs
              && least - cfg.hifiSecs <= errs[i].time <= least + cfg.windowSecs + cfg.hifiSecs
    {
      OneErrorDecides(cfg, errs[i], boot, least, ts);
    }
  }

  /** In the window the widened pre-filter loses nothing. */
  lemma FilterLosesNothing(cfg: Config, errs: seq<ErrorRec>, boot: string, least: nat, ts: nat)
    requires InWindow(cfg, least, ts)
    ensures KeptBy(cfg, errs, boot, least, ts) <==> Near(cfg, errs, boot, ts)
  {
  }

  lemma {:induction false} PreserveIsKept(cfg: Config, errs: seq<ErrorRec>, boot: string, least: nat,
                                          samples: seq<Sample>)
    requires PlainTimes(cfg, errs, boot) && cfg.hifiSecs <= least && InHorizon(cfg, least)
    ensures Preserve(samples, SelectErrors(cfg, errs, boot, least, least + cfg.windowSecs))
         == KeptSamples(cfg, errs, boot, least, samples)
  {
    hide SelectErrors, KeptBy, InSomeRange, PlainTimes;
    if samples != [] {
      var n := |samples| - 1;
      PreserveIsKept(cfg, errs, boot, least, samples[..n]);
      KeptIff(cfg, errs, boot, least, samples[n].ts);
    }
  }

  lemma {:induction false} KeptInWindow(cfg: Config, errs: seq<ErrorRec>, boot: string, least: nat,
                                        samples: seq<Sample>)
    ensures WindowOnly(cfg, least, KeptSamples(cfg, errs, boot, least, samples))
         == NearErrors(cfg, errs, boot, WindowOnly(cfg, least, samples))
  {
    hide KeptBy, Near, InWindow;
    if samples != [] {
      var n := |samples| - 1;
      var kept, inside := KeptSamples(cfg, errs, boot, least, samples[..n]), WindowOnly(cfg, least, samples[..n]);
      KeptInWindow(cfg, errs, boot, least, samples[..n]);
      assert (kept + [samples[n]])[..|kept|] == kept && (inside + [samples[n]])[..|inside|] == inside;
      if InWindow(cfg, least, samples[n].ts) {
        FilterLosesNothing(cfg, errs, boot, least, samples[n].ts);
      }
    }
  }

  lemma FatedIsExact(cfg: Config, w: World)
    requires Fated(cfg, w)
    ensures Exact(cfg, w)
  {
    hide KeptSamples, WindowOnly, NearErrors;
    forall i, stem | Compacted(w, i, stem)
      ensures DirName(w, i) in w.disk.dirs
      ensures WindowOnly(cfg, w.stamps[i], HifiOf(w.disk.dirs[DirName(w, i)], stem))
           == NearErrors(cfg, Records(w.disk.errors), w.boot,
                         WindowOnly(cfg, w.stamps[i], w.written[DirName(w, i)][stem]))
    {
      KeptInWindow(cfg, Records(w.disk.errors), w.boot, w.stamps[i], w.written[DirName(w, i)][stem]);
    }
  }

  lemma {:induction false} PreserveNothing(samples: seq<Sample>)
    ensures Preserve(samples, []) == []
  {
    if samples != [] {
      PreserveNothing(samples[..|samples| - 1]);
    }
  }

  /** A directory stamped before the preserve time has passed since the epoch: the widened range
      wraps around and selects no error at all. */
  lemma EarlyStampSelectsNothing(cfg: Config, errs: seq<ErrorRec>, boot: string, least: nat, far: nat)
    requires least < cfg.hifiSecs && cfg.hifiSecs <= UINT64_MODULUS / 4 && far <= UINT64_MODULUS / 4
    ensures SelectErrors(cfg, errs, boot, least, far) == []
  {
    hide Add64, Sub64;
    WrappedBounds(cfg, least, far);
    if errs != [] {
      EarlyStampSelectsNothing(cfg, errs[..|errs| - 1], boot, least, far);
    }
  }

  /** A log of errors that is missing or has unreadable bytes selects nothing, nor does any log for a
      directory whose name does not have four fields: of the directory only the high-fidelity files it
      had are left. An unreadable log that is read is removed. */
  lemma UnreadableLogKeepsNothing(cfg: Config, ls: Lister, disk: Disk, dir: string, copyOk: bool)
    requires disk.errors.None? || IsTorn(disk.errors) || |SplitAt(dir, '_')| != 4
    requires dir in disk.dirs
    ensures var after := Engine(cfg, ls, disk, dir, copyOk);
            && after.errors == (if |SplitAt(dir, '_')| == 4 then None else disk.errors) && after.boots == disk.boots
            && after.dirs == disk.dirs[dir := WindowDir(map[], disk.dirs[dir].hifi)]
  {
    hide WindowBounds, RemoveEntry, SplitAt, CreateHifi;
  }

  lemma WrappedBounds(cfg: Config, least: nat, far: nat)
    requires least < cfg.hifiSecs && cfg.hifiSecs <= UINT64_MODULUS / 4 && far <= UINT64_MODULUS / 4
    ensures Add64(far, cfg.hifiSecs) < Sub64(least, cfg.hifiSecs)
  {
  }

  // ---------------------------------------------------------------- the invariant

  function DirName(w: World, i: nat): string
    requires i < |w.stamps|
  {
    DirectoryName(w.boot, w.stamps[i])
  }

  function DirNames(boot: string, stamps: seq<nat>): seq<string> {
    seq(|stamps|, i requires 0 <= i < |stamps| => DirectoryName(boot, stamps[i]))
  }

  ghost predicate Rising(stamps: seq<nat>) {
    forall i, j :: 0 <= i < j < |stamps| ==> stamps[i] < stamps[j]
  }

  /** The bookkeeper between callbacks: one or two entries, the last of them the live directory,
      and everything opened before them was compacted, in order. */
  ghost predicate KeeperInOrder(w: World) {
    var names := DirNames(w.boot, w.stamps);
    && '_' !in w.boot
    && Rising(w.stamps) && |w.stamps| > 0 && w.stamps[|w.stamps| - 1] == w.stamp
    && |w.compacted| < |w.stamps| <= |w.compacted| + 2
    && w.compacted == names[..|w.compacted|]
    && w.disk.keeper == Some(RecFile(names[|w.compacted|..], false))
  }

  /** Directory i, not compacted yet, holds exactly what was stored in it. */
  ghost predicate Untouched(w: World, i: nat)
    requires i < |w.stamps|
  {
    var dir := DirName(w, i);
    && dir in w.disk.dirs && dir in w.written
    && w.disk.dirs[dir].hifi == map[]
    && w.disk.dirs[dir].sensors.Keys == w.written[dir].Keys
    && forall stem :: stem in w.written[dir] ==> w.disk.dirs[dir].sensors[stem] == RecFile(w.written[dir][stem], false)
  }

  ghost predicate SamplesUntil(files: map<string, seq<Sample>>, high: int) {
    forall stem, k :: stem in files && 0 <= k < |files[stem]| ==> files[stem][k].ts <= high
  }

  /** Expiries fall in different seconds whatever the gap. */
  function Spacing(gap: nat): nat {
    if gap > 0 then gap else 1
  }

  /** Until when the samples of directory i were taken: one gap before now once it is compacted,
      before the last expiry when it is no longer live. */
  function Deadline(gap: nat, w: World, i: nat): int {
    if i < |w.compacted| then w.clock - Spacing(gap)
    else if i == |w.stamps| - 1 then w.clock
    else w.expiredAt
  }

  ghost predicate OnTime(cfg: Config, gap: nat, w: World, i: nat)
    requires i < |w.stamps|
  {
    var dir := DirName(w, i);
    && cfg.hifiSecs <= w.stamps[i] && InHorizon(cfg, w.stamps[i])
    && dir in w.written
    && SamplesUntil(w.written[dir], Deadline(gap, w, i))
  }

  ghost predicate Timely(cfg: Config, gap: nat, w: World) {
    && w.expiredAt <= w.clock && w.stamp <= w.clock && (|w.stamps| > 1 ==> w.expiredAt <= w.stamp)
    && forall i :: 0 <= i < |w.stamps| ==> OnTime(cfg, gap, w, i)
  }

  ghost predicate LogReadable(cfg: Config, w: World) {
    !IsTorn(w.disk.errors) && PlainTimes(cfg, Records(w.disk.errors), w.boot)
  }

  ghost predicate FutureNamesFree(w: World) {
    forall s: nat :: s > w.stamp ==> DirectoryName(w.boot, s) !in w.disk.dirs && DirectoryName(w.boot, s) !in w.written
  }

  ghost predicate Steady(cfg: Config, gap: nat, w: World) {
    && KeeperInOrder(w)
    && (forall i :: |w.compacted| <= i < |w.stamps| ==> Untouched(w, i))
    && Timely(cfg, gap, w)
    && LogReadable(cfg, w)
    && FutureNamesFree(w)
  }

  /** The recorder right after its constructor opened the first window. */
  ghost predicate Booted(cfg: Config, gap: nat, w: World) {
    && Steady(cfg, gap, w)
    && w.stamps == [w.stamp] && w.compacted == [] && w.written == map[LiveDir(w) := map[]]
  }

  lemma NamesDiffer(w: World, i: nat, j: nat)
    requires KeeperInOrder(w) && i < |w.stamps| && j < |w.stamps| && i != j
    ensures DirName(w, i) != DirName(w, j)
  {
    if DirName(w, i) == DirName(w, j) {
      DirectoryNameInjective(w.boot, w.stamps[i], w.stamps[j]);
    }
  }

  /** The live directory is never among the compacted ones, and none is compacted twice. */
  lemma LiveNeverCompacted(w: World)
    requires KeeperInOrder(w)
    ensures LiveDir(w) !in w.compacted
    ensures forall i, j :: 0 <= i < j < |w.compacted| ==> w.compacted[i] != w.compacted[j]
    ensures var entries := Records(w.disk.keeper); 1 <= |entries| <= 2 && entries[|entries| - 1] == LiveDir(w)
  {
    var last := |w.stamps| - 1;
    forall i | 0 <= i < |w.compacted| ensures w.compacted[i] != LiveDir(w) {
      NamesDiffer(w, i, last);
      assert w.compacted[i] == DirName(w, i);
    }
    forall i, j | 0 <= i < j < |w.compacted| ensures w.compacted[i] != w.compacted[j] {
      NamesDiffer(w, i, j);
      assert w.compacted[i] == DirName(w, i) && w.compacted[j] == DirName(w, j);
    }
  }

  // ---------------------------------------------------------------- steps keep the invariant

  lemma NamesGrow(boot: string, stamps: seq<nat>, s: nat)
    ensures DirNames(boot, stamps + [s]) == DirNames(boot, stamps) + [DirectoryName(boot, s)]
  {
  }

  lemma NameNotEmpty(boot: string, s: nat)
    ensures DirectoryName(boot, s) != ""
  {
    assert DirectoryName(boot, s)[0] == 'B';
  }

  lemma RangesOfWindow(cfg: Config, disk: Disk, boot: string, s: nat)
    requires '_' !in boot && InHorizon(cfg, s) && !IsTorn(disk.errors)
    ensures RangesFor(cfg, disk, DirectoryName(boot, s))
         == SelectErrors(cfg, Records(disk.errors), boot, s, s + cfg.windowSecs)
  {
    hide DirectoryName, NatToString, Strtoull;
    DirectoryNameFields(boot, s);
    UnsignedOfPrinted(s);
  }

  lemma SamplesUntilGrows(files: map<string, seq<Sample>>, stem: string, x: Sample, high: int)
    requires SamplesUntil(files, high) && x.ts <= high
    ensures SamplesUntil(files[stem := History(files, stem) + [x]], high)
  {
  }

  lemma StoreKeepsSteady(cfg: Config, gap: nat, ls: Lister, w: World, e: Event)
    requires Steady(cfg, gap, w) && Allowed(cfg, gap, w, e) && e.Store?
    ensures Steady(cfg, gap, Step(cfg, ls, w, e))
  {
    hide DirectoryName, PlainTimes, SamplesUntil;
    var w' := Step(cfg, ls, w, e);
    var last := |w.stamps| - 1;
    assert DirName(w, last) == LiveDir(w) && OnTime(cfg, gap, w, last) && Untouched(w, last);
    forall i | 0 <= i < |w.stamps|
      ensures OnTime(cfg, gap, w', i) && (|w.compacted| <= i ==> Untouched(w', i))
    {
      assert OnTime(cfg, gap, w, i) && (|w.compacted| <= i ==> Untouched(w, i));
      if i == last {
        LaterDeadline(w.written[LiveDir(w)], w.clock, e.now);
        SamplesUntilGrows(w.written[LiveDir(w)], e.stem, e.sample, e.now);
      } else {
        NamesDiffer(w, i, last);
        LaterDeadline(w.written[DirName(w, i)], Deadline(gap, w, i), Deadline(gap, w', i));
      }
    }
  }

  lemma LaterDeadline(files: map<string, seq<Sample>>, high: int, high': int)
    requires SamplesUntil(files, high) && high <= high'
    ensures SamplesUntil(files, high')
  {
  }

  lemma ReportKeepsSteady(cfg: Config, gap: nat, ls: Lister, w: World, e: Event)
    requires Steady(cfg, gap, w) && Allowed(cfg, gap, w, e) && e.ReportError?
    ensures Steady(cfg, gap, Step(cfg, ls, w, e))
  {
    hide DirectoryName, SamplesUntil;
    var w' := Step(cfg, ls, w, e);
    forall i | 0 <= i < |w.stamps|
      ensures OnTime(cfg, gap, w', i) && (|w.compacted| <= i ==> Untouched(w', i))
    {
      assert OnTime(cfg, gap, w, i) && (|w.compacted| <= i ==> Untouched(w, i));
      LaterDeadline(w.written[DirName(w, i)], Deadline(gap, w, i), Deadline(gap, w', i));
    }
    assert OnTime(cfg, gap, w, |w.stamps| - 1);
    ReportedTimes(cfg, w, e);
  }

  lemma ReportedTimes(cfg: Config, w: World, e: Event)
    requires LogReadable(cfg, w) && InHorizon(cfg, e.now) && cfg.hifiSecs <= e.now && e.ReportError?
    ensures var file := Report(w.disk.errors, ErrorRec(w.boot, e.device, e.paramId, e.errorType, e.now));
            !IsTorn(file) && PlainTimes(cfg, Records(file), w.boot)
  {
  }

  /** A new error farther away than the preserve time decides over no sample. */
  lemma {:induction false} FarErrorChangesNothing(cfg: Config, errs: seq<ErrorRec>, e: ErrorRec, boot: string,
                                                  stamp: nat,
                                                  samples: seq<Sample>)
    requires forall i :: 0 <= i < |samples| ==> samples[i].ts + cfg.hifiSecs < e.time
    ensures KeptSamples(cfg, errs + [e], boot, stamp, samples) == KeptSamples(cfg, errs, boot, stamp, samples)
  {
    hide KeptBy;
    if samples != [] {
      FarErrorChangesNothing(cfg, errs, e, boot, stamp, samples[..|samples| - 1]);
      FarErrorKeepsNothing(cfg, errs, e, boot, stamp, samples[|samples| - 1].ts);
    }
  }

  lemma FarErrorKeepsNothing(cfg: Config, errs: seq<ErrorRec>, e: ErrorRec, boot: string, stamp: nat, ts: nat)
    requires ts + cfg.hifiSecs < e.time
    ensures KeptBy(cfg, errs + [e], boot, stamp, ts) <==> KeptBy(cfg, errs, boot, stamp, ts)
  {
    var all := errs + [e];
    if KeptBy(cfg, errs, boot, stamp, ts) {
      var i :| && 0 <= i < |errs| && errs[i].bootId == boot
               && errs[i].time - cfg.hifiSecs <= ts <= errs[i].time + cfg.hifiSecs
               && stamp - cfg.hifiSecs <= errs[i].time <= stamp + cfg.windowSecs + cfg.hifiSecs;
      assert all[i] == errs[i];
    }
    if KeptBy(cfg, all, boot, stamp, ts) {
      var i :| && 0 <= i < |all| && all[i].bootId == boot
               && all[i].time - cfg.hifiSecs <= ts <= all[i].time + cfg.hifiSecs
               && stamp - cfg.hifiSecs <= all[i].time <= stamp + cfg.windowSecs + cfg.hifiSecs;
      assert all[i] == errs[i];
    }
  }

  lemma StoreKeepsFated(cfg: Config, gap: nat, ls: Lister, w: World, e: Event)
    requires Steady(cfg, gap, w) && Allowed(cfg, gap, w, e) && e.Store? && Fated(cfg, w)
    ensures Fated(cfg, Step(cfg, ls, w, e))
  {
    hide DirectoryName, Timely, PlainTimes, FutureNamesFree, KeptSamples;
    var w' := Step(cfg, ls, w, e);
    var last := |w.stamps| - 1;
    assert DirName(w, last) == LiveDir(w);
    forall i | 0 <= i < |w.compacted| ensures DirName(w', i) == DirName(w, i) != LiveDir(w) {
      NamesDiffer(w, i, last);
    }
  }

  lemma ReportKeepsFated(cfg: Config, gap: nat, ls: Lister, w: World, e: Event)
    requires Steady(cfg, gap, w) && Allowed(cfg, gap, w, e) && e.ReportError? && Fated(cfg, w)
    requires cfg.hifiSecs < Spacing(gap)
    ensures Fated(cfg, Step(cfg, ls, w, e))
  {
    hide DirectoryName, PlainTimes, FutureNamesFree, KeptSamples, HasKey;
    var w' := Step(cfg, ls, w, e);
    var rec := ErrorRec(w.boot, e.device, e.paramId, e.errorType, e.now);
    forall i, stem | Compacted(w', i, stem)
      ensures DirName(w', i) in w'.disk.dirs
      ensures HifiOf(w'.disk.dirs[DirName(w', i)], stem)
           == KeptSamples(cfg, Records(w'.disk.errors), w'.boot, w'.stamps[i], w'.written[DirName(w', i)][stem])
    {
      assert DirName(w', i) == DirName(w, i) && OnTime(cfg, gap, w, i);
      if w'.disk.errors != w.disk.errors {
        assert Records(w'.disk.errors) == Records(w.disk.errors) + [rec];
        FarErrorChangesNothing(cfg, Records(w.disk.errors), rec, w.boot, w.stamps[i], w.written[DirName(w, i)][stem]);
      }
    }
  }

  // ---------------------------------------------------------------- expiry

  /** What an expiry does to the disk: nothing but open a window the first time, and from then
      on compact exactly the directory before the live one. */
  lemma ExpiryOnDisk(cfg: Config, gap: nat, ls: Lister, w: World, e: Event)
    requires Steady(cfg, gap, w) && Allowed(cfg, gap, w, e) && e.Expire? && ListsAll(ls)
    ensures var live := LiveDir(w); var next := DirectoryName(w.boot, e.stampAt); var c := |w.compacted|;
            var w' := Step(cfg, ls, w, e);
            && w'.disk.keeper == Some(RecFile([live, next], false))
            && w'.disk.errors == w.disk.errors && w'.disk.boots == w.disk.boots
            && if |w.stamps| == c + 1 then
                 && w'.compacted == w.compacted
                 && w'.disk.dirs == w.disk.dirs[next := WindowDir(map[], map[])]
               else
                 var dir := DirName(w, c);
                 && dir in w.disk.dirs && w'.compacted == w.compacted + [dir]
                 && w'.disk.dirs == w.disk.dirs[dir := WindowDir(map[], CompactedHifi(w.disk.dirs[dir],
                      SelectErrors(cfg, Records(w.disk.errors), w.boot, w.stamps[c], w.stamps[c] + cfg.windowSecs)))]
                    [next := WindowDir(map[], map[])]
  {
    hide PlainTimes, Engine, CompactedHifi, SelectErrors, DirectoryName;
    var c, names := |w.compacted|, DirNames(w.boot, w.stamps);
    var entries := Records(w.disk.keeper);
    var next := DirectoryName(w.boot, e.stampAt);
    assert entries == names[c..] && next !in w.disk.dirs;
    assert [LiveDir(w)] + [next] == [LiveDir(w), next];
    if |w.stamps| == c + 1 {
      assert entries == [LiveDir(w)];
      assert ExpireWindow(cfg, ls, w.disk) == w.disk;
    } else {
      var dir := DirName(w, c);
      assert entries == [dir, LiveDir(w)];
      NameNotEmpty(w.boot, w.stamps[c]);
      assert Untouched(w, c) && OnTime(cfg, gap, w, c);
      RangesOfWindow(cfg, w.disk, w.boot, w.stamps[c]);
      UntouchedIsSettled(cfg, w, c);
      EngineClosed(cfg, ls, w.disk, dir);
      RemoveFirst(w.disk.keeper);
      NamesDiffer(w, c, c + 1);
      assert entries[1..] == [LiveDir(w)];
      assert ExpireWindow(cfg, ls, w.disk) == Engine(cfg, ls, w.disk, dir, true);
    }
  }

  lemma UntouchedIsSettled(cfg: Config, w: World, i: nat)
    requires i < |w.stamps| && Untouched(w, i)
    ensures Recoverable(cfg, w.disk, DirName(w, i))
  {
    hide RangesFor, DirectoryName, Preserve;
  }

  /** An expiry compacts every entry but the live one, of which there is at most one. */
  lemma ExpireKeepsKeeper(cfg: Config, ls: Lister, w: World, e: Event)
    requires KeeperInOrder(w) && e.Expire? && w.stamp < e.stampAt
    ensures KeeperInOrder(Step(cfg, ls, w, e))
    ensures var entries := Records(w.disk.keeper);
            Step(cfg, ls, w, e).compacted == w.compacted + entries[..|entries| - 1]
  {
    hide DirectoryName, Engine, RemoveEntry;
    var c, names := |w.compacted|, DirNames(w.boot, w.stamps);
    var w' := Step(cfg, ls, w, e);
    var entries := Records(w.disk.keeper);
    assert entries == names[c..];
    NamesGrow(w.boot, w.stamps, e.stampAt);
    var names' := DirNames(w'.boot, w'.stamps);
    assert names'[..c] == names[..c];
    assert [LiveDir(w)] + [DirectoryName(w.boot, e.stampAt)] == [LiveDir(w), DirectoryName(w.boot, e.stampAt)];
    if |w.stamps| == c + 1 {
      assert entries == [LiveDir(w)];
      assert w.compacted + [] == w.compacted && entries[..0] == [];
    } else {
      var dir := DirName(w, c);
      assert entries == [dir, LiveDir(w)] && entries[..1] == [dir] && entries[1..] == [LiveDir(w)];
      NameNotEmpty(w.boot, w.stamps[c]);
      EngineKeeper(cfg, ls, w.disk, dir, true);
      RemoveFirst(w.disk.keeper);
      assert names'[..c + 1] == names[..c] + [names[c]];
    }
    assert names'[|w'.compacted|..] == [LiveDir(w), DirectoryName(w.boot, e.stampAt)];
  }

  lemma ExpireKeepsSteady(cfg: Config, gap: nat, ls: Lister, w: World, e: Event)
    requires Steady(cfg, gap, w) && Allowed(cfg, gap, w, e) && e.Expire? && ListsAll(ls)
    ensures Steady(cfg, gap, Step(cfg, ls, w, e))
  {
    ExpiryOnDisk(cfg, gap, ls, w, e);
    ExpireKeepsKeeper(cfg, ls, w, e);
    var w' := Step(cfg, ls, w, e);
    ExpireKeepsDirs(cfg, gap, ls, w, e);
    ExpireFreesNames(cfg, gap, ls, w, e);
  }

  lemma ExpireFreesNames(cfg: Config, gap: nat, ls: Lister, w: World, e: Event)
    requires Steady(cfg, gap, w) && Allowed(cfg, gap, w, e) && e.Expire? && ListsAll(ls)
    ensures FutureNamesFree(Step(cfg, ls, w, e))
  {
    hide Timely, LogReadable, Untouched, DirectoryName, ExpireWindow, OpenWindow, GetDirectoryToCompact,
      CompactedHifi, SelectErrors;
    ExpiryOnDisk(cfg, gap, ls, w, e);
    var w' := Step(cfg, ls, w, e);
    forall s: nat | s > e.stampAt
      ensures DirectoryName(w.boot, s) !in w'.disk.dirs && DirectoryName(w.boot, s) !in w'.written
    {
      if DirectoryName(w.boot, s) == DirectoryName(w.boot, e.stampAt) {
        DirectoryNameInjective(w.boot, s, e.stampAt);
      }
    }
  }

  lemma ExpireKeepsDirs(cfg: Config, gap: nat, ls: Lister, w: World, e: Event)
    requires Steady(cfg, gap, w) && Allowed(cfg, gap, w, e) && e.Expire? && ListsAll(ls)
    ensures var w' := Step(cfg, ls, w, e);
            && |w'.compacted| <= |w'.stamps|
            && forall i :: 0 <= i < |w'.stamps| ==>
              OnTime(cfg, gap, w', i) && (|w'.compacted| <= i ==> Untouched(w', i))
  {
    hide LogReadable, DirectoryName, ExpireWindow, OpenWindow, GetDirectoryToCompact, CompactedHifi, SelectErrors,
      SamplesUntil;
    ExpiryOnDisk(cfg, gap, ls, w, e);
    var w' := Step(cfg, ls, w, e);
    var next := DirectoryName(w.boot, e.stampAt);
    assert next !in w.disk.dirs && next !in w.written;
    assert OnTime(cfg, gap, w, 0);
    forall i | 0 <= i < |w'.stamps|
      ensures OnTime(cfg, gap, w', i) && (|w'.compacted| <= i ==> Untouched(w', i))
    {
      if i < |w.stamps| {
        assert OnTime(cfg, gap, w, i) && (|w.compacted| <= i ==> Untouched(w, i));
        assert DirName(w', i) == DirName(w, i) != next;
        LaterDeadline(w.written[DirName(w, i)], Deadline(gap, w, i), Deadline(gap, w', i));
        if |w'.compacted| <= i && |w.compacted| < i {
          NamesDiffer(w, i, |w.compacted|);
        }
      } else {
        NothingWritten(Deadline(gap, w', i));
      }
    }
  }

  lemma NothingWritten(deadline: int)
    ensures SamplesUntil(map[], deadline)
  {
  }

  lemma CompactedHifiOf(wd: WindowDir, ranges: seq<Range>, stem: string)
    requires wd.hifi == map[] && stem in wd.sensors
    ensures HifiOf(WindowDir(map[], CompactedHifi(wd, ranges)), stem) == Preserve(wd.sensors[stem].records, ranges)
  {
    PreserveNothing(wd.sensors[stem].records);
  }

  /** The directory compacted at an expiry keeps exactly the samples the errors logged so far decide. */
  lemma CompactedNowIsFated(cfg: Config, gap: nat, w: World, stem: string)
    requires Steady(cfg, gap, w) && |w.compacted| < |w.stamps|
    requires var dir := DirName(w, |w.compacted|); dir in w.written && stem in w.written[dir]
    ensures var dir, s := DirName(w, |w.compacted|), w.stamps[|w.compacted|];
            var ranges := SelectErrors(cfg, Records(w.disk.errors), w.boot, s, s + cfg.windowSecs);
            && dir in w.disk.dirs
            && HifiOf(WindowDir(map[], CompactedHifi(w.disk.dirs[dir], ranges)), stem)
            == KeptSamples(cfg, Records(w.disk.errors), w.boot, s, w.written[dir][stem])
  {
    hide DirectoryName, CompactedHifi, SelectErrors, PlainTimes, Preserve, KeptSamples;
    var c := |w.compacted|;
    var dir, s := DirName(w, c), w.stamps[c];
    assert Untouched(w, c) && OnTime(cfg, gap, w, c);
    CompactedHifiOf(w.disk.dirs[dir], SelectErrors(cfg, Records(w.disk.errors), w.boot, s, s + cfg.windowSecs), stem);
    PreserveIsKept(cfg, Records(w.disk.errors), w.boot, s, w.written[dir][stem]);
  }

  lemma ExpireKeepsFated(cfg: Config, gap: nat, ls: Lister, w: World, e: Event)
    requires Steady(cfg, gap, w) && Allowed(cfg, gap, w, e) && e.Expire? && ListsAll(ls) && Fated(cfg, w)
    ensures Fated(cfg, Step(cfg, ls, w, e))
  {
    hide DirectoryName, ExpireWindow, OpenWindow, GetDirectoryToCompact, CompactedHifi, SelectErrors, KeptSamples,
      Timely, LogReadable;
    ExpiryOnDisk(cfg, gap, ls, w, e);
    var w' := Step(cfg, ls, w, e);
    var next := DirectoryName(w.boot, e.stampAt);
    assert next !in w.disk.dirs && next !in w.written;
    forall i, stem | Compacted(w', i, stem)
      ensures DirName(w', i) in w'.disk.dirs
      ensures HifiOf(w'.disk.dirs[DirName(w', i)], stem)
           == KeptSamples(cfg, Records(w.disk.errors), w.boot, w'.stamps[i], w'.written[DirName(w', i)][stem])
    {
      assert i < |w.stamps| && DirName(w', i) == DirName(w, i);
      if i < |w.compacted| {
        if |w.stamps| == |w.compacted| + 2 {
          NamesDiffer(w, i, |w.compacted|);
        }
        NotNext(w, i, next);
      } else {
        NotNext(w, i, next);
        CompactedNowIsFated(cfg, gap, w, stem);
      }
    }
  }

  lemma NotNext(w: World, i: nat, next: string)
    requires next !in w.written && i < |w.stamps| && (DirName(w, i) in w.written || DirName(w, i) != next)
    ensures DirName(w, i) != next
  {
  }

  lemma StepKeepsSteady(cfg: Config, gap: nat, ls: Lister, w: World, e: Event)
    requires Steady(cfg, gap, w) && Allowed(cfg, gap, w, e) && ListsAll(ls)
    ensures Steady(cfg, gap, Step(cfg, ls, w, e))
  {
    match e
    case Store(_, _, _) => StoreKeepsSteady(cfg, gap, ls, w, e);
    case ReportError(_, _, _, _) => ReportKeepsSteady(cfg, gap, ls, w, e);
    case Expire(_, _) => ExpireKeepsSteady(cfg, gap, ls, w, e);
  }

  lemma StepKeepsFated(cfg: Config, gap: nat, ls: Lister, w: World, e: Event)
    requires Steady(cfg, gap, w) && Allowed(cfg, gap, w, e) && ListsAll(ls) && Fated(cfg, w)
    requires e.ReportError? ==> cfg.hifiSecs < Spacing(gap)
    ensures Fated(cfg, Step(cfg, ls, w, e))
  {
    match e
    case Store(_, _, _) => StoreKeepsFated(cfg, gap, ls, w, e);
    case ReportError(_, _, _, _) => ReportKeepsFated(cfg, gap, ls, w, e);
    case Expire(_, _) => ExpireKeepsFated(cfg, gap, ls, w, e);
  }

  /** In every reachable state the bookkeeper is in order, directories not compacted yet hold what was
      stored in them, and samples, windows and log keep their times. */
  lemma {:induction false} RunStaysSteady(cfg: Config, gap: nat, ls: Lister, w: World, events: seq<Event>)
    requires Steady(cfg, gap, w) && AllowedRun(cfg, gap, ls, w, events) && ListsAll(ls)
    ensures Steady(cfg, gap, Run(cfg, ls, w, events))
    decreases |events|
  {
    hide Steady, Step, Allowed;
    if events != [] {
      StepKeepsSteady(cfg, gap, ls, w, events[0]);
      RunStaysSteady(cfg, gap, ls, Step(cfg, ls, w, events[0]), events[1..]);
    }
  }

  /** The fate of every sample of every run: where expiries are farther apart than the preserve time,
      a compacted directory holds exactly the samples decided by the log as it is now, whatever was
      logged after the compaction. */
  lemma {:induction false} RunStaysFated(cfg: Config, gap: nat, ls: Lister, w: World, events: seq<Event>)
    requires Steady(cfg, gap, w) && AllowedRun(cfg, gap, ls, w, events) && ListsAll(ls) && Fated(cfg, w)
    requires cfg.hifiSecs < Spacing(gap)
    ensures Fated(cfg, Run(cfg, ls, w, events))
    decreases |events|
  {
    hide Steady, Step, Allowed, Fated;
    if events != [] {
      StepKeepsSteady(cfg, gap, ls, w, events[0]);
      StepKeepsFated(cfg, gap, ls, w, events[0]);
      RunStaysFated(cfg, gap, ls, Step(cfg, ls, w, events[0]), events[1..]);
    }
  }

  // ---------------------------------------------------------------- the main result

  /** From every boot, through every run with the expiries that far apart, the compacted directories
      hold, of the samples taken in their windows, exactly those near an error of this boot, errors
      logged after the compaction included. */
  ghost predicate AlwaysExact(cfg: Config, gap: nat, ls: Lister) {
    forall w, events :: Booted(cfg, gap, w) && AllowedRun(cfg, gap, ls, w, events) ==>
      Exact(cfg, Run(cfg, ls, w, events))
  }

  /** The boot event falls in the second the window was stamped in. */
  function FreshDisk(cfg: Config, dir: string): Disk {
    Disk(Some(RecFile([dir], false)), None, Some(RecFile([BootEvent("1", cfg.hifiSecs, cfg.format)], false)),
         map[dir := WindowDir(map[], map[])])
  }

  function FreshWorld(cfg: Config): World {
    var dir := DirectoryName("1", cfg.hifiSecs);
    World(FreshDisk(cfg, dir), "1", cfg.hifiSecs, cfg.hifiSecs, cfg.hifiSecs, [cfg.hifiSecs], [], map[dir := map[]])
  }

  lemma FreshWorldBooted(cfg: Config, gap: nat)
    requires InHorizon(cfg, cfg.hifiSecs)
    ensures Booted(cfg, gap, FreshWorld(cfg))
  {
    hide DirectoryName;
    var w := FreshWorld(cfg);
    forall s: nat | s > w.stamp
      ensures DirectoryName(w.boot, s) !in w.disk.dirs && DirectoryName(w.boot, s) !in w.written
    {
      if DirectoryName(w.boot, s) == DirectoryName(w.boot, w.stamp) {
        DirectoryNameInjective(w.boot, s, w.stamp);
      }
    }
    assert DirNames(w.boot, w.stamps) == [DirName(w, 0)];
    assert OnTime(cfg, gap, w, 0) && Untouched(w, 0);
  }

  lemma NothingCompactedIsFated(cfg: Config, w: World)
    requires w.compacted == []
    ensures Fated(cfg, w)
  {
  }

  lemma BootedIsSteady(cfg: Config, gap: nat, w: World)
    requires Booted(cfg, gap, w)
    ensures Steady(cfg, gap, w) && w.compacted == []
  {
  }

  // Runs that hold one sample, in the window at index i.

  ghost predicate OneSample(cfg: Config, gap: nat, w: World, n: nat, i: nat, x: Sample) {
    && Steady(cfg, gap, w) && Fated(cfg, w)
    && |w.stamps| == n + 1 && i < |w.stamps| && DirName(w, i) in w.written
    && w.written[DirName(w, i)] == map["s" := [x]]
  }

  ghost predicate NoSample(cfg: Config, gap: nat, w: World, n: nat) {
    && Steady(cfg, gap, w) && Fated(cfg, w)
    && |w.stamps| == n + 1 && LiveDir(w) in w.written && w.written[LiveDir(w)] == map[]
  }

  lemma WindowExpires(cfg: Config, gap: nat, ls: Lister, w: World, n: nat, i: nat, x: Sample, e: Event)
    requires ListsAll(ls) && e.Expire? && Allowed(cfg, gap, w, e)
    requires NoSample(cfg, gap, w, n) || OneSample(cfg, gap, w, n, i, x)
    ensures var w' := Step(cfg, ls, w, e);
            && (OneSample(cfg, gap, w, n, i, x) ==> OneSample(cfg, gap, w', n + 1, i, x) && w'.stamps[i] == w.stamps[i])
            && NoSample(cfg, gap, w', n + 1)
            && w'.boot == w.boot && w'.disk.errors == w.disk.errors
            && w'.clock == w'.stamp == e.stampAt && w'.expiredAt == e.now && w'.stamps[n + 1] == e.stampAt
            && |w'.compacted| == (if n + 1 == |w.compacted| + 2 then |w.compacted| + 1 else |w.compacted|)
  {
    hide Fated, Timely, Untouched, LogReadable, CompactedHifi, SelectErrors, DirectoryName, OpenWindow, ExpireWindow,
      GetDirectoryToCompact;
    StepKeepsSteady(cfg, gap, ls, w, e);
    StepKeepsFated(cfg, gap, ls, w, e);
    ExpiryOnDisk(cfg, gap, ls, w, e);
    assert DirectoryName(w.boot, e.stampAt) !in w.written;
  }

  lemma SampleStored(cfg: Config, gap: nat, ls: Lister, w: World, n: nat, e: Event)
    requires ListsAll(ls) && e.Store? && e.stem == "s" && Allowed(cfg, gap, w, e) && NoSample(cfg, gap, w, n)
    ensures var w' := Step(cfg, ls, w, e);
            && OneSample(cfg, gap, w', n, n, e.sample) && w'.compacted == w.compacted && w'.stamps == w.stamps
            && w'.boot == w.boot && w'.disk.errors == w.disk.errors
            && w'.clock == e.now && w'.stamp == w.stamp && w'.expiredAt == w.expiredAt
  {
    hide DirectoryName, Fated, Timely, LogReadable;
    StepKeepsSteady(cfg, gap, ls, w, e);
    StepKeepsFated(cfg, gap, ls, w, e);
    assert DirName(w, n) == LiveDir(w) && Untouched(w, n);
    assert History(w.written[LiveDir(w)], "s") + [e.sample] == [e.sample];
  }

  lemma KeptOne(cfg: Config, errs: seq<ErrorRec>, boot: string, stamp: nat, x: Sample)
    ensures KeptSamples(cfg, errs, boot, stamp, [x]) == if KeptBy(cfg, errs, boot, stamp, x.ts) then [x] else []
    ensures WindowOnly(cfg, stamp, [x]) == if InWindow(cfg, stamp, x.ts) then [x] else []
    ensures NearErrors(cfg, errs, boot, [x]) == if Near(cfg, errs, boot, x.ts) then [x] else []
  {
    assert [x][..0] == [];
  }

  // A sample, and an error logged right after its window was compacted.

  function LateErrorRun(cfg: Config, g: nat): seq<Event> {
    var s0 := cfg.hifiSecs; var t := s0 + 2 * g + 1;
    [Expire(s0 + g, s0 + 2 * g), Store(t, "s", Sample(t, 0, 0)), Expire(t, t), Expire(t + g, t + g),
     ReportError(t + g, "GPU0", 1, "FAULTS")]
  }

  lemma LateErrorReaches(cfg: Config, gap: nat, ls: Lister, w: World, n: nat, i: nat, x: Sample, e: Event)
    requires OneSample(cfg, gap, w, n, i, x) && i < |w.compacted| && e.ReportError? && w.disk.errors == None
    requires x.ts <= e.now <= x.ts + cfg.hifiSecs && InWindow(cfg, w.stamps[i], x.ts)
    ensures !Exact(cfg, Step(cfg, ls, w, e))
  {
    hide DirectoryName, Timely, Untouched, FutureNamesFree, KeptSamples, WindowOnly, NearErrors;
    var w' := Step(cfg, ls, w, e);
    var dir := DirName(w, i);
    assert DirName(w', i) == dir && "s" in w.written[dir] && w.written[dir]["s"] == [x];
    KeptOne(cfg, [], w.boot, w.stamps[i], x);
    assert HifiOf(w.disk.dirs[dir], "s") == [];
    var errs := Records(w'.disk.errors);
    assert errs[0].time == e.now && errs[0].bootId == w.boot;
    assert Near(cfg, errs, w.boot, x.ts);
    KeptOne(cfg, errs, w.boot, w.stamps[i], x);
    NothingInWindow(cfg, w.stamps[i]);
    assert NearErrors(cfg, errs, w.boot, [x]) == [x];
  }

  lemma NothingInWindow(cfg: Config, stamp: nat)
    ensures WindowOnly(cfg, stamp, []) == []
  {
  }

  lemma LateErrorBreaksExactness(cfg: Config, gap: nat, ls: Lister)
    requires ListsAll(ls) && 0 < cfg.windowSecs && Spacing(gap) <= cfg.hifiSecs
    requires InHorizon(cfg, cfg.hifiSecs + 3 * Spacing(gap) + 1)
    ensures Booted(cfg, gap, FreshWorld(cfg))
    ensures AllowedRun(cfg, gap, ls, FreshWorld(cfg), LateErrorRun(cfg, Spacing(gap)))
    ensures !Exact(cfg, Run(cfg, ls, FreshWorld(cfg), LateErrorRun(cfg, Spacing(gap))))
  {
    hide Step, Exact, Booted, OneSample, NoSample, ListsAll, Run, AllowedRun;
    var g, s0 := Spacing(gap), cfg.hifiSecs;
    var t := s0 + 2 * g + 1;
    var x := Sample(t, 0, 0);
    var w0 := FreshWorld(cfg);
    var e0, e1, e2, e3 := Expire(s0 + g, s0 + 2 * g), Store(t, "s", x), Expire(t, t), Expire(t + g, t + g);
    var e4 := ReportError(t + g, "GPU0", 1, "FAULTS");
    FreshHasNoSample(cfg, gap);
    FreshWorldBooted(cfg, gap);
    WindowExpires(cfg, gap, ls, w0, 0, 0, x, e0);
    var w1 := Step(cfg, ls, w0, e0);
    SampleStored(cfg, gap, ls, w1, 1, e1);
    var w2 := Step(cfg, ls, w1, e1);
    WindowExpires(cfg, gap, ls, w2, 1, 1, x, e2);
    var w3 := Step(cfg, ls, w2, e2);
    WindowExpires(cfg, gap, ls, w3, 2, 1, x, e3);
    var w4 := Step(cfg, ls, w3, e3);
    LateErrorReaches(cfg, gap, ls, w4, 3, 1, x, e4);
    FiveSteps(cfg, gap, ls, w0, e0, e1, e2, e3, e4);
  }

  lemma FreshHasNoSample(cfg: Config, gap: nat)
    requires InHorizon(cfg, cfg.hifiSecs)
    ensures NoSample(cfg, gap, FreshWorld(cfg), 0)
  {
    hide Steady;
    FreshWorldBooted(cfg, gap);
    NothingCompactedIsFated(cfg, FreshWorld(cfg));
  }

  lemma FiveSteps(cfg: Config, gap: nat, ls: Lister, w0: World, e0: Event, e1: Event, e2: Event, e3: Event, e4: Event)
    ensures var w1 := Step(cfg, ls, w0, e0); var w2 := Step(cfg, ls, w1, e1); var w3 := Step(cfg, ls, w2, e2);
            var w4 := Step(cfg, ls, w3, e3);
            && Run(cfg, ls, w0, [e0, e1, e2, e3, e4]) == Step(cfg, ls, w4, e4)
            && (Allowed(cfg, gap, w0, e0) && Allowed(cfg, gap, w1, e1)
                && Allowed(cfg, gap, w2, e2) && Allowed(cfg, gap, w3, e3) && Allowed(cfg, gap, w4, e4)
                ==> AllowedRun(cfg, gap, ls, w0, [e0, e1, e2, e3, e4]))
  {
    hide Step, Allowed;
    var w1 := Step(cfg, ls, w0, e0);
    var w2 := Step(cfg, ls, w1, e1);
    var w3 := Step(cfg, ls, w2, e2);
    var w4 := Step(cfg, ls, w3, e3);
    RunTail(cfg, gap, ls, w4, e4, []);
    RunTail(cfg, gap, ls, w3, e3, [e4]);
    RunTail(cfg, gap, ls, w2, e2, [e3, e4]);
    RunTail(cfg, gap, ls, w1, e1, [e2, e3, e4]);
    RunTail(cfg, gap, ls, w0, e0, [e1, e2, e3, e4]);
  }

  lemma FourSteps(cfg: Config, gap: nat, ls: Lister, w0: World, e0: Event, e1: Event, e2: Event, e3: Event)
    ensures var w1 := Step(cfg, ls, w0, e0); var w2 := Step(cfg, ls, w1, e1); var w3 := Step(cfg, ls, w2, e2);
            && Run(cfg, ls, w0, [e0, e1, e2, e3]) == Step(cfg, ls, w3, e3)
            && (Allowed(cfg, gap, w0, e0) && Allowed(cfg, gap, w1, e1)
                && Allowed(cfg, gap, w2, e2) && Allowed(cfg, gap, w3, e3)
                ==> AllowedRun(cfg, gap, ls, w0, [e0, e1, e2, e3]))
  {
    hide Step, Allowed;
    var w1 := Step(cfg, ls, w0, e0);
    var w2 := Step(cfg, ls, w1, e1);
    var w3 := Step(cfg, ls, w2, e2);
    RunTail(cfg, gap, ls, w3, e3, []);
    RunTail(cfg, gap, ls, w2, e2, [e3]);
    RunTail(cfg, gap, ls, w1, e1, [e2, e3]);
    RunTail(cfg, gap, ls, w0, e0, [e1, e2, e3]);
  }

  lemma RunTail(cfg: Config, gap: nat, ls: Lister, w: World, e: Event, events: seq<Event>)
    ensures Run(cfg, ls, w, [e] + events) == Run(cfg, ls, Step(cfg, ls, w, e), events)
    ensures AllowedRun(cfg, gap, ls, w, [e] + events)
       <==> Allowed(cfg, gap, w, e) && AllowedRun(cfg, gap, ls, Step(cfg, ls, w, e), events)
    ensures Run(cfg, ls, w, []) == w && AllowedRun(cfg, gap, ls, w, [])
  {
    hide Step, Allowed;
    assert ([e] + events)[1..] == events;
  }

  /** High-fidelity preservation holds over every run exactly when the preserve time is shorter than
      the time between two expiries. */
  lemma ExactIffPreserveTimeShorterThanGap(cfg: Config, gap: nat, ls: Lister)
    requires ListsAll(ls) && 0 < cfg.windowSecs && InHorizon(cfg, cfg.hifiSecs + 3 * Spacing(gap) + 1)
    ensures AlwaysExact(cfg, gap, ls) <==> cfg.hifiSecs < Spacing(gap)
  {
    hide Exact, Steady, Fated, Booted;
    if cfg.hifiSecs < Spacing(gap) {
      forall w, events | Booted(cfg, gap, w) && AllowedRun(cfg, gap, ls, w, events)
        ensures Exact(cfg, Run(cfg, ls, w, events))
      {
        BootedIsSteady(cfg, gap, w);
        NothingCompactedIsFated(cfg, w);
        RunStaysFated(cfg, gap, ls, w, events);
        FatedIsExact(cfg, Run(cfg, ls, w, events));
      }
    } else {
      LateErrorBreaksExactness(cfg, gap, ls);
    }
  }

  /** With the expiry check of the polling loop, a window apart: exactly when it is shorter than the
      window. */
  lemma ExactIffPreserveTimeShorter(cfg: Config, ls: Lister)
    requires ListsAll(ls) && 0 < cfg.windowSecs && InHorizon(cfg, cfg.hifiSecs + 3 * cfg.windowSecs + 1)
    ensures AlwaysExact(cfg, cfg.windowSecs, ls) <==> cfg.hifiSecs < cfg.windowSecs
  {
    ExactIffPreserveTimeShorterThanGap(cfg, cfg.windowSecs, ls);
  }

  // A sample taken behind the nominal end of its window.

  function LateSampleRun(cfg: Config, g: nat): seq<Event> {
    var ts := cfg.hifiSecs + cfg.windowSecs + 1; var t := ts + cfg.hifiSecs;
    [Store(ts, "s", Sample(ts, 0, 0)), ReportError(t, "GPU0", 1, "FAULTS"),
     Expire(t + g, t + g), Expire(t + 2 * g, t + 2 * g)]
  }

  lemma ErrorReported(cfg: Config, gap: nat, ls: Lister, w: World, n: nat, i: nat, x: Sample, e: Event)
    requires ListsAll(ls) && e.ReportError? && Allowed(cfg, gap, w, e) && OneSample(cfg, gap, w, n, i, x)
    requires w.disk.errors == None && cfg.hifiSecs < Spacing(gap)
    ensures var w' := Step(cfg, ls, w, e);
            && OneSample(cfg, gap, w', n, i, x) && w'.compacted == w.compacted && w'.stamps == w.stamps
            && w'.boot == w.boot
            && Records(w'.disk.errors) == [ErrorRec(w.boot, e.device, e.paramId, e.errorType, e.now)]
            && w'.clock == e.now && w'.stamp == w.stamp && w'.expiredAt == w.expiredAt
  {
    hide DirectoryName, Fated, Timely, Untouched, FutureNamesFree;
    StepKeepsSteady(cfg, gap, ls, w, e);
    StepKeepsFated(cfg, gap, ls, w, e);
  }

  /** Whatever the configuration and however far apart the expiries, such a sample is deleted although
      an error logged before the compaction lies within the preserve time: the error is too far from
      the nominal window. */
  lemma LateSampleIsLost(cfg: Config, gap: nat, ls: Lister)
    requires ListsAll(ls)
    requires InHorizon(cfg, 2 * cfg.hifiSecs + cfg.windowSecs + 1 + 2 * (gap + cfg.hifiSecs + 1))
    ensures var g := gap + cfg.hifiSecs + 1; var x := Sample(cfg.hifiSecs + cfg.windowSecs + 1, 0, 0);
            var w := Run(cfg, ls, FreshWorld(cfg), LateSampleRun(cfg, g));
            && Booted(cfg, g, FreshWorld(cfg)) && AllowedRun(cfg, g, ls, FreshWorld(cfg), LateSampleRun(cfg, g))
            && |w.compacted| == 1 && |w.stamps| == 3 && DirName(w, 0) in w.written
            && w.written[DirName(w, 0)] == map["s" := [x]]
            && Near(cfg, Records(w.disk.errors), w.boot, x.ts)
            && DirName(w, 0) in w.disk.dirs && HifiOf(w.disk.dirs[DirName(w, 0)], "s") == []
  {
    hide Step, Booted, OneSample, NoSample, ListsAll, Run, AllowedRun;
    var g, w0 := gap + cfg.hifiSecs + 1, FreshWorld(cfg);
    var ts := cfg.hifiSecs + cfg.windowSecs + 1;
    var x, t := Sample(ts, 0, 0), ts + cfg.hifiSecs;
    var e0, e1 := Store(ts, "s", x), ReportError(t, "GPU0", 1, "FAULTS");
    var e2, e3 := Expire(t + g, t + g), Expire(t + 2 * g, t + 2 * g);
    FreshHasNoSample(cfg, g);
    FreshWorldBooted(cfg, g);
    SampleStored(cfg, g, ls, w0, 0, e0);
    var w1 := Step(cfg, ls, w0, e0);
    ErrorReported(cfg, g, ls, w1, 0, 0, x, e1);
    var w2 := Step(cfg, ls, w1, e1);
    WindowExpires(cfg, g, ls, w2, 0, 0, x, e2);
    var w3 := Step(cfg, ls, w2, e2);
    WindowExpires(cfg, g, ls, w3, 1, 0, x, e3);
    var w4 := Step(cfg, ls, w3, e3);
    FourSteps(cfg, g, ls, w0, e0, e1, e2, e3);
    FateOfOne(cfg, g, w4, 2, 0, x);
  }

  lemma FateOfOne(cfg: Config, gap: nat, w: World, n: nat, i: nat, x: Sample)
    requires OneSample(cfg, gap, w, n, i, x) && i < |w.compacted|
    requires |Records(w.disk.errors)| == 1 && Records(w.disk.errors)[0].bootId == w.boot
    requires Records(w.disk.errors)[0].time == x.ts + cfg.hifiSecs && x.ts == w.stamps[i] + cfg.windowSecs + 1
    ensures Near(cfg, Records(w.disk.errors), w.boot, x.ts)
    ensures DirName(w, i) in w.disk.dirs && HifiOf(w.disk.dirs[DirName(w, i)], "s") == []
    ensures DirName(w, i) in w.written && w.written[DirName(w, i)] == map["s" := [x]] && |w.stamps| == n + 1
  {
    hide Steady, KeptSamples, DirectoryName;
    KeptOne(cfg, Records(w.disk.errors), w.boot, w.stamps[i], x);
    assert "s" in w.written[DirName(w, i)] && w.written[DirName(w, i)]["s"] == [x];
  }

  // ---------------------------------------------------------------- a restart in the middle

  /** A restart within the same boot of the board: another boot event, the drain of the bookkeeper, and
      a new window. */
  function Restart(cfg: Config, ls: Lister, w: World, stampAt: nat, now: nat): World {
    var events := Append(w.disk.boots, BootEvent(w.boot, now, cfg.format));
    var dir := DirectoryName(w.boot, stampAt);
    w.(disk := OpenWindow(Drain(cfg, ls, w.disk.(boots := events)), dir),
       stamp := stampAt, clock := now, expiredAt := now,
       stamps := w.stamps + [stampAt], compacted := w.compacted + Records(w.disk.keeper),
       written := w.written[dir := map[]])
  }

  lemma DrainOfOne(cfg: Config, ls: Lister, disk: Disk, boot: string, stamp: nat)
    requires '_' !in boot && stamp < UINT64_MODULUS && !IsTorn(disk.boots) && ListsAll(ls)
    requires disk.keeper == Some(RecFile([DirectoryName(boot, stamp)], false))
    requires LastBootHas(Records(disk.boots), boot, stamp, cfg.format)
    requires Recoverable(cfg, disk, DirectoryName(boot, stamp))
    ensures var dir := DirectoryName(boot, stamp); var now := Drain(cfg, ls, disk);
            && now.keeper == None && now.errors == CheckedErrors(disk.errors, dir)
            && now.dirs == disk.dirs[dir := WindowDir(map[], CompactedHifi(disk.dirs[dir], RangesFor(cfg, disk, dir)))]
  {
    hide DrainOne, Engine, LastBootHas, Recoverable, DirectoryName, CompactedHifi, CheckedErrors, RangesFor;
    DrainCompactsIff(cfg, ls, disk, boot, stamp);
    EngineClosed(cfg, ls, disk, DirectoryName(boot, stamp));
    RemoveFirst(disk.keeper);
  }

  lemma RestartDrains(cfg: Config, gap: nat, ls: Lister, w: World, x: Sample, stampAt: nat, now: nat)
    requires ListsAll(ls) && OneSample(cfg, gap, w, 0, 0, x) && w.compacted == []
    requires w.stamp < stampAt <= now
    requires w.disk.errors == None && w.stamps == [w.stamp] && InHorizon(cfg, w.stamp)
    requires w.disk.boots == Some(RecFile([BootEvent(w.boot, w.stamp, cfg.format)], false))
    ensures var w' := Restart(cfg, ls, w, stampAt, now);
            && w'.compacted == [LiveDir(w)] && w'.stamps == [w.stamp, stampAt] && w'.disk.errors == None
            && w'.boot == w.boot
            && LiveDir(w) in w'.written && w'.written[LiveDir(w)] == map["s" := [x]]
            && LiveDir(w) in w'.disk.dirs && HifiOf(w'.disk.dirs[LiveDir(w)], "s") == []
  {
    hide DirectoryName, Drain, CompactedHifi, LogReadable, Fated, Timely, Preserve;
    var boots := Append(w.disk.boots, BootEvent(w.boot, now, cfg.format));
    var disk := w.disk.(boots := boots);
    var events := Records(boots);
    assert events[0] == BootEvent(w.boot, w.stamp, cfg.format) && |events| == 2 && events[1].time == now;
    assert DirName(w, 0) == LiveDir(w) && Untouched(w, 0);
    assert DirNames(w.boot, w.stamps) == [LiveDir(w)];
    assert Records(w.disk.keeper) == [LiveDir(w)];
    UntouchedIsSettled(cfg, w, 0);
    SameLogSameRanges(cfg, w.disk, disk, LiveDir(w));
    DrainOfOne(cfg, ls, disk, w.boot, w.stamp);
    RangesOfWindow(cfg, disk, w.boot, w.stamp);
    NothingSelectedYet(cfg, disk.dirs[LiveDir(w)], w.boot, w.stamp);
    DirectoryNamesApart(w.boot, w.stamp, stampAt);
    assert [] + [LiveDir(w)] == [LiveDir(w)] && [w.stamp] + [stampAt] == [w.stamp, stampAt];
  }

  lemma SameLogSameRanges(cfg: Config, a: Disk, b: Disk, dir: string)
    requires a.errors == b.errors && a.dirs == b.dirs && Recoverable(cfg, a, dir)
    ensures Recoverable(cfg, b, dir)
  {
  }

  lemma NothingSelectedYet(cfg: Config, wd: WindowDir, boot: string, stamp: nat)
    ensures CompactedHifi(wd, SelectErrors(cfg, [], boot, stamp, stamp + cfg.windowSecs)) == wd.hifi
  {
  }

  lemma DirectoryNamesApart(boot: string, a: nat, b: nat)
    requires '_' !in boot && a != b
    ensures DirectoryName(boot, a) != DirectoryName(boot, b)
  {
    hide DirectoryName;
    if DirectoryName(boot, a) == DirectoryName(boot, b) {
      DirectoryNameInjective(boot, a, b);
    }
  }

  lemma ErrorBehindCompaction(cfg: Config, ls: Lister, w: World, x: Sample, e: Event)
    requires w.stamps != [] && w.compacted == [DirName(w, 0)] && w.disk.errors == None && e.ReportError?
    requires e.now == x.ts
    requires DirName(w, 0) in w.written && w.written[DirName(w, 0)] == map["s" := [x]]
    requires InWindow(cfg, w.stamps[0], x.ts)
    requires DirName(w, 0) in w.disk.dirs && HifiOf(w.disk.dirs[DirName(w, 0)], "s") == []
    ensures !Exact(cfg, Step(cfg, ls, w, e))
  {
    hide DirectoryName, KeptSamples, WindowOnly, NearErrors;
    var w', dir := Step(cfg, ls, w, e), DirName(w, 0);
    assert DirName(w', 0) == dir && "s" in w'.written[dir] && w'.written[dir]["s"] == [x];
    var errs := Records(w'.disk.errors);
    assert errs[0].time == e.now && errs[0].bootId == w.boot;
    assert Near(cfg, errs, w.boot, x.ts);
    KeptOne(cfg, errs, w.boot, w.stamps[0], x);
    NothingInWindow(cfg, w.stamps[0]);
    assert NearErrors(cfg, errs, w.boot, [x]) == [x];
  }

  /** Over runs with a restart within one boot of the board exactness holds for no configuration: the
      drain compacts the live window at once, and an error logged right after reaches what it deleted. */
  lemma RestartBreaksExactness(cfg: Config, gap: nat, ls: Lister)
    requires ListsAll(ls) && 0 < cfg.windowSecs && InHorizon(cfg, cfg.hifiSecs + 1)
    ensures var t := cfg.hifiSecs + 1; var x := Sample(t, 0, 0);
            var store, report := Store(t, "s", x), ReportError(t, "GPU0", 1, "FAULTS");
            var w := Step(cfg, ls, FreshWorld(cfg), store);
            && Booted(cfg, gap, FreshWorld(cfg)) && Allowed(cfg, gap, FreshWorld(cfg), store)
            && w.stamp < t && w.clock <= t
            && !Exact(cfg, Step(cfg, ls, Restart(cfg, ls, w, t, t), report))
  {
    hide Step, Exact, Booted, OneSample, NoSample, ListsAll, Restart, DirectoryName;
    var t := cfg.hifiSecs + 1;
    var x := Sample(t, 0, 0);
    var w0, store := FreshWorld(cfg), Store(t, "s", x);
    FreshHasNoSample(cfg, gap);
    FreshWorldBooted(cfg, gap);
    SampleStored(cfg, gap, ls, w0, 0, store);
    var w := Step(cfg, ls, w0, store);
    StoreKeepsBoots(cfg, ls, w0, store);
    RestartDrains(cfg, gap, ls, w, x, t, t);
    ErrorBehindCompaction(cfg, ls, Restart(cfg, ls, w, t, t), x, ReportError(t, "GPU0", 1, "FAULTS"));
  }

  lemma StoreKeepsBoots(cfg: Config, ls: Lister, w: World, e: Event)
    requires e.Store?
    ensures Step(cfg, ls, w, e).disk.boots == w.disk.boots
  {
  }

  // ---------------------------------------------------------------- the bookkeeper over runs

  /** Each window opens in a later second than the one before; nothing else is asked of a run. */
  ghost predicate RisingRun(cfg: Config, ls: Lister, w: World, events: seq<Event>)
    decreases |events|
  {
    events == []
    || ((events[0].Expire? ==> w.stamp < events[0].stampAt)
        && RisingRun(cfg, ls, Step(cfg, ls, w, events[0]), events[1..]))
  }

  lemma StepKeepsKeeper(cfg: Config, ls: Lister, w: World, e: Event)
    requires KeeperInOrder(w) && (e.Expire? ==> w.stamp < e.stampAt)
    requires |w.stamps| == |w.compacted| + 1 <==> |w.stamps| == 1
    ensures var w' := Step(cfg, ls, w, e);
            KeeperInOrder(w') && (|w'.stamps| == |w'.compacted| + 1 <==> |w'.stamps| == 1)
  {
    hide DirectoryName, ExpireWindow, OpenWindow, GetDirectoryToCompact, StoreSample;
    if e.Expire? {
      ExpireKeepsKeeper(cfg, ls, w, e);
    }
  }

  lemma {:induction false} RunKeepsKeeper(cfg: Config, ls: Lister, w: World, events: seq<Event>)
    requires KeeperInOrder(w) && RisingRun(cfg, ls, w, events)
    requires |w.stamps| == |w.compacted| + 1 <==> |w.stamps| == 1
    ensures var now := Run(cfg, ls, w, events);
            KeeperInOrder(now) && (|now.stamps| == |now.compacted| + 1 <==> |now.stamps| == 1)
    decreases |events|
  {
    hide KeeperInOrder, Step;
    if events != [] {
      StepKeepsKeeper(cfg, ls, w, events[0]);
      RunKeepsKeeper(cfg, ls, Step(cfg, ls, w, events[0]), events[1..]);
    }
  }

  /** Every callback after the constructor finds the bookkeeper in order, and each expiry compacts the
      directory before the live one, and nothing else; only the first finds none. Late samples,
      early expiries and corrupt logs do not matter. */
  lemma BookkeeperOverRuns(cfg: Config, ls: Lister, w: World, events: seq<Event>, e: Event)
    requires KeeperInOrder(w) && w.compacted == [] && |w.stamps| == 1 && RisingRun(cfg, ls, w, events)
    requires e.Expire? && Run(cfg, ls, w, events).stamp < e.stampAt
    ensures var now := Run(cfg, ls, w, events); var next := Step(cfg, ls, now, e);
            var entries := Records(now.disk.keeper);
            && 1 <= |entries| <= 2 && entries[|entries| - 1] == LiveDir(now) && LiveDir(now) !in next.compacted
            && next.compacted == now.compacted + entries[..|entries| - 1]
            && (|entries| == 1 <==> |now.stamps| == 1)
  {
    hide DirectoryName, Run, ExpireWindow, OpenWindow, GetDirectoryToCompact;
    RunKeepsKeeper(cfg, ls, w, events);
    var now := Run(cfg, ls, w, events);
    LiveNeverCompacted(now);
    ExpireKeepsKeeper(cfg, ls, now, e);
    var c, last := |now.compacted|, |now.stamps| - 1;
    assert |Records(now.disk.keeper)| == |now.stamps| - c;
    if last == c + 1 {
      NamesDiffer(now, c, last);
      assert Records(now.disk.keeper)[..1] == [DirName(now, c)] && DirName(now, last) == LiveDir(now);
    }
  }

  // ---------------------------------------------------------------- the constructor

  lemma {:induction false} DrainKeepsNames(cfg: Config, ls: Lister, disk: Disk)
    ensures Drain(cfg, ls, disk).dirs.Keys == disk.dirs.Keys
    ensures !IsTorn(disk.errors) ==> Drain(cfg, ls, disk).errors == disk.errors
    decreases |Records(disk.keeper)|
  {
    if Records(disk.keeper) != [] {
      RemoveFirst(disk.keeper);
      DrainKeepsNames(cfg, ls, DrainOne(cfg, ls, disk));
    }
  }

  /** Whatever bookkeeper the last run left, the constructor ends with one entry, the live
      directory, and the run starts from there. */
  lemma ConstructorBoots(cfg: Config, gap: nat, ls: Lister, disk: Disk, boot: string, stamp: nat, now: nat)
    requires '_' !in boot && cfg.hifiSecs <= stamp <= now && InHorizon(cfg, stamp)
    requires !IsTorn(disk.errors) && PlainTimes(cfg, Records(disk.errors), boot)
    requires forall s: nat :: s >= stamp ==> DirectoryName(boot, s) !in disk.dirs
    ensures var dir := DirectoryName(boot, stamp);
            Booted(cfg, gap,
                   World(OpenWindow(Drain(cfg, ls, disk), dir), boot, stamp, now, now, [stamp], [], map[dir := map[]]))
  {
    hide DirectoryName, Drain;
    DrainHandles(cfg, ls, disk);
    DrainKeepsNames(cfg, ls, disk);
    var dir := DirectoryName(boot, stamp);
    var w := World(OpenWindow(Drain(cfg, ls, disk), dir), boot, stamp, now, now, [stamp], [], map[dir := map[]]);
    assert DirNames(boot, [stamp]) == [DirName(w, 0)];
    assert dir !in Drain(cfg, ls, disk).dirs.Keys;
    assert [] + [dir] == [dir];
    assert KeeperInOrder(w);
    assert OnTime(cfg, gap, w, 0) && Untouched(w, 0);
    assert Timely(cfg, gap, w);
    assert LogReadable(cfg, w);
    forall s: nat | s > stamp ensures DirectoryName(boot, s) !in w.disk.dirs && DirectoryName(boot, s) !in w.written {
      if DirectoryName(boot, s) == dir {
        DirectoryNameInjective(boot, s, stamp);
      }
    }
  }
}

/** Compaction of the window directories: one window late, the raw samples of a directory are
    deleted and only those near a logged error are kept, driven by the bookkeeper file. */
module Compactor {
  import opened Text
  import opened RecordFile
  import opened BookOfErrors

  // ---------------------------------------------------------------- data

  datatype Sample = Sample(ts: nat, paramId: nat, value: int)

  type Hifi = map<string, seq<Sample>>

  /** One window directory: <stem>.sensors.dat and <stem>.sensors.hifi.dat by stem. */
  datatype WindowDir = WindowDir(sensors: map<string, RecFile<Sample>>, hifi: Hifi)

  datatype BootEvent = BootEvent(bootId: string, time: nat, format: nat)

  type Keeper = Option<RecFile<string>>

  datatype Disk = Disk(keeper: Keeper, errors: ErrorFile, boots: Option<RecFile<BootEvent>>,
                       dirs: map<string, WindowDir>)

  datatype Config = Config(hifiSecs: nat, windowSecs: nat, format: nat)

  /** The times around one selected error that are kept, both ends included. */
  datatype Range = Range(start: nat, stop: nat)

  /** directory_iterator: some order of the stems in a directory. */
  type Lister = (string, set<string>) -> seq<string>

  ghost predicate IsListing(order: seq<string>, stems: set<string>) {
    && (forall i, j :: 0 <= i < j < |order| ==> order[i] != order[j])
    && (forall s :: s in order <==> s in stems)
  }

  ghost predicate ListsAll(ls: Lister) {
    forall dir, stems :: IsListing(ls(dir, stems), stems)
  }

  // ---------------------------------------------------------------- 64-bit times

  function Add64(a: nat, b: nat): nat {
    (a + b) % 0x1_0000_0000_0000_0000
  }

  function Sub64(a: nat, b: nat): nat {
    (a - b) % 0x1_0000_0000_0000_0000
  }

  predicate CheckIsInRange(low: nat, high: nat, x: nat) {
    low <= x <= high
  }

  // ---------------------------------------------------------------- which errors, which samples

  /** The least and the far timestamp of a directory, read from its name. */
  function WindowBounds(cfg: Config, dir: string): (nat, nat) {
    var parts := SplitAt(dir, '_');
    if |parts| != 4 then (0, 0)
    else
      var (least, atEnd) := Strtoull(parts[3]);
      (least, if atEnd then Add64(least, cfg.windowSecs) else 0)
  }

  predicate Selects(cfg: Config, boot: string, least: nat, far: nat, e: ErrorRec) {
    e.bootId == boot && CheckIsInRange(Sub64(least, cfg.hifiSecs), Add64(far, cfg.hifiSecs), e.time)
  }

  function SelectErrors(cfg: Config, errs: seq<ErrorRec>, boot: string, least: nat, far: nat): seq<Range> {
    if errs == [] then []
    else
      var n := |errs| - 1;
      var before := SelectErrors(cfg, errs[..n], boot, least, far);
      if Selects(cfg, boot, least, far, errs[n])
      then before + [Range(Sub64(errs[n].time, cfg.hifiSecs), Add64(errs[n].time, cfg.hifiSecs))]
      else before
  }

  /** The selected ranges; none when the log is missing or turns out corrupt. */
  function CheckedRanges(cfg: Config, errors: ErrorFile, dir: string, least: nat, far: nat): seq<Range> {
    var parts := SplitAt(dir, '_');
    if errors.None? || |parts| != 4 || errors.value.torn then []
    else SelectErrors(cfg, errors.value.records, parts[1], least, far)
  }

  function CheckedErrors(errors: ErrorFile, dir: string): ErrorFile {
    if |SplitAt(dir, '_')| != 4 then errors else AfterFullRead(errors)
  }

  predicate InSomeRange(ranges: seq<Range>, ts: nat) {
    exists i :: 0 <= i < |ranges| && CheckIsInRange(ranges[i].start, ranges[i].stop, ts)
  }

  function Preserve(samples: seq<Sample>, ranges: seq<Range>): seq<Sample> {
    if samples == [] then []
    else
      var n := |samples| - 1;
      if InSomeRange(ranges, samples[n].ts) then Preserve(samples[..n], ranges) + [samples[n]]
      else Preserve(samples[..n], ranges)
  }

  // ---------------------------------------------------------------- one directory

  /** A file exists from its first append on. */
  function WithHifi(hifi: Hifi, stem: string, kept: seq<Sample>): Hifi {
    if kept == [] then hifi - {stem} else hifi[stem := kept]
  }

  lemma WithHifiGrows(hifi: Hifi, stem: string, kept: seq<Sample>, x: Sample)
    ensures var built := WithHifi(hifi, stem, kept); var content := if stem in built then built[stem] else [];
            content == kept && built[stem := content + [x]] == WithHifi(hifi, stem, kept + [x])
  {
    assert (hifi - {stem})[stem := kept + [x]] == hifi[stem := kept + [x]];
  }

  /** The hifi files built in listing order; a corrupt sample file ends the work. */
  function CreateHifi(wd: WindowDir, order: seq<string>, ranges: seq<Range>): WindowDir
    decreases |order|
  {
    if order == [] || order[0] !in wd.sensors then wd
    else
      var file := wd.sensors[order[0]];
      var built := wd.(hifi := WithHifi(wd.hifi, order[0], Preserve(file.records, ranges)));
      if file.torn then built.(sensors := built.sensors - {order[0]})
      else CreateHifi(built, order[1..], ranges)
  }

  function CompactDir(wd: WindowDir, order: seq<string>, ranges: seq<Range>): WindowDir {
    var built := if ranges == [] then wd else CreateHifi(wd, order, ranges);
    built.(sensors := map[])
  }

  // ---------------------------------------------------------------- bookkeeper

  function DropThrough(entries: seq<string>, dir: string): seq<string> {
    if entries == [] then []
    else if entries[0] == dir then entries[1..]
    else DropThrough(entries[1..], dir)
  }

  function RemoveEntry(keeper: Keeper, dir: string, copyOk: bool): Keeper {
    if IsTorn(keeper) then None
    else
      var rest := DropThrough(Records(keeper), dir);
      if rest == [] then None
      else if copyOk then Some(RecFile(rest, false))
      else keeper
  }

  /** The name returned, how many entries were read, and the file afterwards. */
  datatype Lookup = Lookup(dir: string, count: nat, keeper: Keeper)

  function GetDirectoryToCompact(keeper: Keeper, numberOfDirs: nat): Lookup
    requires numberOfDirs > 0
  {
    var entries := Records(keeper);
    if |entries| >= numberOfDirs then Lookup(entries[0], numberOfDirs, keeper)
    else Lookup("", |entries|, AfterFullRead(keeper))
  }

  // ---------------------------------------------------------------- the engine

  function Engine(cfg: Config, ls: Lister, disk: Disk, dir: string, copyOk: bool): Disk {
    var (least, far) := WindowBounds(cfg, dir);
    var ranges := CheckedRanges(cfg, disk.errors, dir, least, far);
    var dirs :=
      if dir in disk.dirs
      then disk.dirs[dir := CompactDir(disk.dirs[dir], ls(dir, disk.dirs[dir].sensors.Keys), ranges)]
      else disk.dirs;
    Disk(RemoveEntry(disk.keeper, dir, copyOk), CheckedErrors(disk.errors, dir), disk.boots, dirs)
  }

  function LatestFormat(events: seq<BootEvent>, boot: string, stamp: nat): nat {
    if events == [] then 0
    else
      var n := |events| - 1;
      if events[n].bootId == boot && stamp >= events[n].time then events[n].format
      else LatestFormat(events[..n], boot, stamp)
  }

  /** A stamp that does not parse counts as zero: the parse error never reaches the caller. */
  function StampOrZero(s: string): nat {
    var v := Stoull(s);
    if v.Some? then v.value else 0
  }

  function DataFormat(boots: Option<RecFile<BootEvent>>, dir: string): nat {
    var parts := SplitAt(dir, '_');
    if boots.None? || |parts| != 4 || boots.value.torn then 0
    else LatestFormat(boots.value.records, parts[1], StampOrZero(parts[3]))
  }

  function CheckedBoots(boots: Option<RecFile<BootEvent>>, dir: string): Option<RecFile<BootEvent>> {
    if |SplitAt(dir, '_')| != 4 then boots else AfterFullRead(boots)
  }

  /** One round of the boot-time loop, on the first entry; copyOk tells how copying a rewritten
      bookkeeper back goes. */
  function DrainTry(cfg: Config, ls: Lister, disk: Disk, copyOk: bool): Disk
    requires Records(disk.keeper) != []
  {
    var dir := Records(disk.keeper)[0];
    if dir == "" then disk.(keeper := RemoveEntry(disk.keeper, "", copyOk))
    else
      var format := DataFormat(disk.boots, dir);
      var read := disk.(boots := CheckedBoots(disk.boots, dir));
      if format != cfg.format then read.(keeper := RemoveEntry(disk.keeper, dir, copyOk))
      else Engine(cfg, ls, read, dir, copyOk)
  }

  function DrainOne(cfg: Config, ls: Lister, disk: Disk): Disk
    requires Records(disk.keeper) != []
  {
    DrainTry(cfg, ls, disk, true)
  }

  lemma RemoveFirst(keeper: Keeper)
    requires Records(keeper) != []
    ensures RemoveEntry(keeper, Records(keeper)[0], true)
         == if IsTorn(keeper) || |Records(keeper)| == 1 then None else Some(RecFile(Records(keeper)[1..], false))
  {
  }

  function Drain(cfg: Config, ls: Lister, disk: Disk): Disk
    decreases |Records(disk.keeper)|
  {
    if Records(disk.keeper) == [] then disk.(keeper := AfterFullRead(disk.keeper))
    else
      RemoveFirst(disk.keeper);
      Drain(cfg, ls, DrainOne(cfg, ls, disk))
  }

  /** The loop as far as the copies go that are known of, and whether it has ended by then. */
  function DrainRounds(cfg: Config, ls: Lister, disk: Disk, copies: seq<bool>): (Disk, bool)
    decreases |copies|
  {
    if Records(disk.keeper) == [] then (disk.(keeper := AfterFullRead(disk.keeper)), true)
    else if copies == [] then (disk, false)
    else DrainRounds(cfg, ls, DrainTry(cfg, ls, disk, copies[0]), copies[1..])
  }

  lemma {:induction false} AllCopiesSucceed(cfg: Config, ls: Lister, disk: Disk, n: nat)
    requires n >= |Records(disk.keeper)|
    ensures DrainRounds(cfg, ls, disk, seq(n, _ => true)) == (Drain(cfg, ls, disk), true)
    decreases n
  {
    hide Engine, DataFormat, CheckedBoots, RemoveEntry;
    if Records(disk.keeper) != [] {
      var copies := seq(n, _ => true);
      RemoveFirst(disk.keeper);
      FewerEntries(cfg, ls, disk);
      assert copies[0] && copies[1..] == seq(n - 1, _ => true);
      AllCopiesSucceed(cfg, ls, DrainOne(cfg, ls, disk), n - 1);
    }
  }

  lemma FewerEntries(cfg: Config, ls: Lister, disk: Disk)
    requires Records(disk.keeper) != []
    ensures |Records(DrainOne(cfg, ls, disk).keeper)| < |Records(disk.keeper)|
  {
    hide SelectErrors, CompactDir, DataFormat, RemoveEntry, WindowBounds;
    RemoveFirst(disk.keeper);
  }

  /** The compaction part of a window expiry. */
  function ExpireWindow(cfg: Config, ls: Lister, disk: Disk): Disk {
    var found := GetDirectoryToCompact(disk.keeper, 2);
    var read := disk.(keeper := found.keeper);
    if found.dir != "" then Engine(cfg, ls, read, found.dir, true)
    else if found.count == 2 then read.(keeper := RemoveEntry(read.keeper, "", true))
    else read
  }

  /** The new live directory is created on disk and entered in the bookkeeper. */
  function OpenWindow(disk: Disk, dir: string): Disk {
    disk.(dirs := if dir in disk.dirs then disk.dirs else disk.dirs[dir := WindowDir(map[], map[])],
          keeper := Append(disk.keeper, dir))
  }

  // ---------------------------------------------------------------- the recorder's methods

  class Recorder {
    const cfg: Config
    const ls: Lister
    var keeper: Keeper
    var errors: ErrorFile
    var boots: Option<RecFile<BootEvent>>
    var dirs: map<string, WindowDir>
    var bootCounter: string
    var sensorDirTimestamp: nat
    var lastCompactWindowDirCreationSecsAt: int

    ghost function Value(): Disk
      reads this
    {
      Disk(keeper, errors, boots, dirs)
    }

    ghost predicate Valid()
      reads this
    {
      ListsAll(ls)
    }

    constructor (cfg: Config, ls: Lister, disk: Disk, boot: string, stamp: nat, now: int)
      requires ListsAll(ls)
      ensures Valid() && this.cfg == cfg && this.ls == ls
      ensures Value() == OpenWindow(Drain(cfg, ls, disk), DirectoryName(boot, stamp))
      ensures bootCounter == boot && sensorDirTimestamp == stamp && lastCompactWindowDirCreationSecsAt == now
    {
      this.cfg, this.ls := cfg, ls;
      keeper, errors, boots, dirs := disk.keeper, disk.errors, disk.boots, disk.dirs;
      bootCounter, sensorDirTimestamp, lastCompactWindowDirCreationSecsAt := boot, stamp, now;
      new;
      AllCopiesSucceed(cfg, ls, disk, |Records(disk.keeper)|);
      var ended := CleanEntries(seq(|Records(disk.keeper)|, _ => true));
      AppendEntry();
    }

    method CheckBookOfErrors(dir: string, least: nat, far: nat) returns (found: bool, ranges: seq<Range>)
      modifies this`errors
      ensures errors == CheckedErrors(old(errors), dir)
      ensures found <==> CheckedRanges(cfg, old(errors), dir, least, far) != []
      ensures found ==> ranges == CheckedRanges(cfg, old(errors), dir, least, far)
    {
      ranges := [];
      if errors.None? {
        return false, ranges;
      }
      var parts := Split(dir, '_');
      if |parts| != 4 {
        return false, ranges;
      }
      var boot := parts[1];
      ghost var records := errors.value.records;
      var pos := 0;
      var read := ReadNext(errors, pos);
      while read.Record?
        invariant errors == old(errors) && read == ReadNext(errors, pos) && pos <= |records|
        invariant ranges == SelectErrors(cfg, records[..pos], boot, least, far)
        decreases |records| - pos
      {
        assert records[..pos + 1][..pos] == records[..pos];
        if boot == read.r.bootId {
          var low := Sub64(least, cfg.hifiSecs);
          var high := Add64(far, cfg.hifiSecs);
          if CheckIsInRange(low, high, read.r.time) {
            ranges := ranges + [Range(Sub64(read.r.time, cfg.hifiSecs), Add64(read.r.time, cfg.hifiSecs))];
          }
        }
        pos := pos + 1;
        read := ReadNext(errors, pos);
      }
      assert records[..pos] == records;
      if read.Corrupt? {
        errors := None;
        return false, ranges;
      }
      return |ranges| > 0, ranges;
    }

    /** The inner loop over the error list, left at the first match. */
    method FallsInRange(ranges: seq<Range>, ts: nat) returns (hit: bool)
      ensures hit <==> InSomeRange(ranges, ts)
    {
      for i := 0 to |ranges|
        invariant !InSomeRange(ranges[..i], ts)
      {
        if CheckIsInRange(ranges[i].start, ranges[i].stop, ts) {
          return true;
        }
        assert ranges[..i + 1] == ranges[..i] + [ranges[i]];
      }
      assert ranges[..|ranges|] == ranges;
      return false;
    }

    method CreateOneHifi(dir: string, stem: string, ranges: seq<Range>) returns (corrupt: bool)
      requires dir in dirs && stem in dirs[dir].sensors
      modifies this`dirs
      ensures var wd := old(dirs)[dir]; var file := wd.sensors[stem];
              && corrupt == file.torn
              && dirs == old(dirs)[dir := WindowDir(
                   if file.torn then wd.sensors - {stem} else wd.sensors,
                   WithHifi(wd.hifi, stem, Preserve(file.records, ranges)))]
    {
      var wd := dirs[dir];
      var file := wd.sensors[stem];
      // the older destination file goes first
      dirs := dirs[dir := wd.(hifi := wd.hifi - {stem})];
      ghost var kept: seq<Sample> := [];
      var pos := 0;
      var read := ReadNext(Some(file), pos);
      while read.Record?
        invariant read == ReadNext(Some(file), pos) && pos <= |file.records|
        invariant kept == Preserve(file.records[..pos], ranges)
        invariant dirs == old(dirs)[dir := wd.(hifi := WithHifi(wd.hifi, stem, kept))]
        decreases |file.records| - pos
      {
        assert file.records[..pos + 1][..pos] == file.records[..pos];
        var hit := FallsInRange(ranges, read.r.ts);
        if hit {
          var hifi := dirs[dir].hifi;
          var content := if stem in hifi then hifi[stem] else [];
          WithHifiGrows(wd.hifi, stem, kept, read.r);
          dirs := dirs[dir := dirs[dir].(hifi := hifi[stem := content + [read.r]])];
          kept := kept + [read.r];
        }
        pos := pos + 1;
        read := ReadNext(Some(file), pos);
      }
      assert file.records[..pos] == file.records;
      corrupt := read.Corrupt?;
      if corrupt {
        dirs := dirs[dir := dirs[dir].(sensors := dirs[dir].sensors - {stem})];
      }
    }

    method CreateHighFidelityFiles(dir: string, ranges: seq<Range>)
      requires Valid()
      modifies this`dirs
      ensures dirs == if dir in old(dirs)
                      then old(dirs)[dir := CreateHifi(old(dirs)[dir], ls(dir, old(dirs)[dir].sensors.Keys), ranges)]
                      else old(dirs)
    {
      if dir !in dirs {
        return;
      }
      var wd := dirs[dir];
      var order := ls(dir, wd.sensors.Keys);
      assert IsListing(order, wd.sensors.Keys);
      var i := 0;
      while i < |order|
        invariant i <= |order| && dir in dirs
        invariant dirs == old(dirs)[dir := dirs[dir]] && dirs[dir].sensors == wd.sensors
        invariant CreateHifi(wd, order, ranges) == CreateHifi(dirs[dir], order[i..], ranges)
      {
        assert order[i] in order && order[i..][0] == order[i] && order[i..][1..] == order[i + 1..];
        var corrupt := CreateOneHifi(dir, order[i], ranges);
        if corrupt {
          return;
        }
        i := i + 1;
      }
    }

    method RemoveSamplesLogfiles(dir: string)
      requires Valid()
      modifies this`dirs
      ensures dirs == if dir in old(dirs) then old(dirs)[dir := old(dirs)[dir].(sensors := map[])] else old(dirs)
    {
      if dir !in dirs {
        return;
      }
      var wd := dirs[dir];
      var order := ls(dir, wd.sensors.Keys);
      assert IsListing(order, wd.sensors.Keys);
      var i := 0;
      while i < |order|
        invariant i <= |order| && dir in dirs
        invariant dirs == old(dirs)[dir := wd.(sensors := dirs[dir].sensors)]
        invariant dirs[dir].sensors.Keys <= wd.sensors.Keys
        invariant forall s :: s in dirs[dir].sensors ==> s in order[i..]
      {
        var removed := order[i];
        assert order[i..] == [removed] + order[i + 1..];
        dirs := dirs[dir := dirs[dir].(sensors := dirs[dir].sensors - {removed})];
        i := i + 1;
      }
      assert order[i..] == [];
      assert dirs[dir].sensors == map[];
    }

    method AppendEntry()
      modifies this`keeper, this`dirs
      ensures Value() == OpenWindow(old(Value()), DirectoryName(bootCounter, sensorDirTimestamp))
    {
      var dir := DirectoryName(bootCounter, sensorDirTimestamp);
      if dir !in dirs {
        dirs := dirs[dir := WindowDir(map[], map[])];
      }
      keeper := Append(keeper, dir);
    }

    method BookKeeperRemoveEntry(dir: string, copyOk: bool)
      modifies this`keeper
      ensures keeper == RemoveEntry(old(keeper), dir, copyOk)
    {
      var entries := [];
      var pos := 0;
      var read := ReadNext(keeper, pos);
      while read.Record?
        invariant keeper == old(keeper) && read == ReadNext(keeper, pos)
        invariant pos <= |Records(keeper)| && entries == Records(keeper)[..pos]
        decreases |Records(keeper)| - pos
      {
        entries := entries + [read.r];
        pos := pos + 1;
        read := ReadNext(keeper, pos);
      }
      assert entries == Records(keeper);
      if read.Corrupt? {
        keeper := None;
        return;
      }
      while entries != []
        invariant keeper == old(keeper) && !IsTorn(keeper)
        invariant DropThrough(Records(keeper), dir) == DropThrough(entries, dir)
        decreases |entries|
      {
        if entries[0] == dir {
          entries := entries[1..];
          break;
        } else {
          entries := entries[1..];
        }
      }
      assert entries == DropThrough(Records(keeper), dir);
      if |entries| != 0 {
        var newKeeper: Keeper := None;
        for i := 0 to |entries|
          invariant newKeeper == if i == 0 then None else Some(RecFile(entries[..i], false))
        {
          assert entries[..i + 1] == entries[..i] + [entries[i]];
          assert i == 0 ==> entries[..i + 1] == [entries[i]];
          newKeeper := Append(newKeeper, entries[i]);
        }
        assert entries[..|entries|] == entries;
        if !copyOk {
          return;
        }
        keeper := newKeeper;
      } else {
        keeper := None;
      }
    }

    method GetItsDataFormat(dir: string) returns (format: nat)
      modifies this`boots
      ensures format == DataFormat(old(boots), dir) && boots == CheckedBoots(old(boots), dir)
    {
      format := 0;
      if boots.None? {
        return;
      }
      var parts := Split(dir, '_');
      if |parts| != 4 {
        return;
      }
      var boot, stamp := parts[1], StampOrZero(parts[3]);
      ghost var records := boots.value.records;
      var pos := 0;
      var read := ReadNext(boots, pos);
      while read.Record?
        invariant boots == old(boots) && read == ReadNext(boots, pos) && pos <= |records|
        invariant format == LatestFormat(records[..pos], boot, stamp)
        decreases |records| - pos
      {
        assert records[..pos + 1][..pos] == records[..pos];
        if boot == read.r.bootId && stamp >= read.r.time {
          format := read.r.format;
        }
        pos := pos + 1;
        read := ReadNext(boots, pos);
      }
      assert records[..pos] == records;
      if read.Corrupt? {
        boots := None;
        return 0;
      }
    }

    method DirectoryToCompact(numberOfDirs: nat) returns (dir: string, count: nat)
      requires numberOfDirs > 0
      modifies this`keeper
      ensures Lookup(dir, count, keeper) == GetDirectoryToCompact(old(keeper), numberOfDirs)
    {
      dir, count := "", 0;
      var read := ReadNext(keeper, 0);
      while read.Record?
        invariant keeper == old(keeper) && read == ReadNext(keeper, count)
        invariant count <= |Records(keeper)| && count < numberOfDirs
        invariant count > 0 ==> dir == Records(keeper)[0]
        decreases |Records(keeper)| - count
      {
        if count == 0 {
          dir := read.r;
        }
        count := count + 1;
        if count >= numberOfDirs {
          return;
        }
        read := ReadNext(keeper, count);
      }
      if read.Corrupt? {
        keeper := None;
      }
      dir := "";
    }

    method CompactorEngine(dir: string, copyOk: bool)
      requires Valid()
      modifies this`keeper, this`errors, this`dirs
      ensures Value() == Engine(cfg, ls, old(Value()), dir, copyOk)
    {
      var (least, far) := WindowBounds(cfg, dir);
      var found, ranges := CheckBookOfErrors(dir, least, far);
      if found {
        CreateHighFidelityFiles(dir, ranges);
      }
      RemoveSamplesLogfiles(dir);
      BookKeeperRemoveEntry(dir, copyOk);
    }

    /** The boot-time loop; copies foretells how each copy goes, and the loop is followed as far. */
    method CleanEntries(copies: seq<bool>) returns (ended: bool)
      requires Valid()
      modifies this`keeper, this`errors, this`boots, this`dirs
      ensures (Value(), ended) == DrainRounds(cfg, ls, old(Value()), copies)
    {
      hide Engine, RemoveEntry, DataFormat, CheckedBoots;
      var i := 0;
      while true
        invariant i <= |copies|
        invariant DrainRounds(cfg, ls, Value(), copies[i..]) == DrainRounds(cfg, ls, old(Value()), copies)
        decreases |copies| - i
      {
        ghost var before := Value();
        var dir, count := DirectoryToCompact(1);
        if dir == "" && count != 1 {
          return true;
        }
        assert Records(before.keeper) != [] && Value() == before;
        if i == |copies| {
          return false;
        }
        if dir == "" {
          BookKeeperRemoveEntry(dir, copies[i]);
        } else {
          var format := GetItsDataFormat(dir);
          if format != cfg.format {
            BookKeeperRemoveEntry(dir, copies[i]);
          } else {
            CompactorEngine(dir, copies[i]);
          }
        }
        assert Value() == DrainTry(cfg, ls, before, copies[i]);
        assert copies[i..][0] == copies[i] && copies[i..][1..] == copies[i + 1..];
        i := i + 1;
      }
    }

    method CheckCompactionWindowExpiry(viaTimerSkipChecks: bool, now: int, windowAt: int) returns (expired: bool)
      requires Valid()
      modifies this`keeper, this`errors, this`dirs, this`lastCompactWindowDirCreationSecsAt
      ensures expired <==> viaTimerSkipChecks || now - old(lastCompactWindowDirCreationSecsAt) >= cfg.windowSecs
      ensures Value() == if expired then ExpireWindow(cfg, ls, old(Value())) else old(Value())
      ensures lastCompactWindowDirCreationSecsAt
           == if expired then windowAt else old(lastCompactWindowDirCreationSecsAt)
    {
      expired := false;
      if viaTimerSkipChecks || now - lastCompactWindowDirCreationSecsAt >= cfg.windowSecs {
        var dir, count := DirectoryToCompact(2);
        if dir == "" {
          if count == 2 {
            BookKeeperRemoveEntry(dir, true);
          }
        } else {
          CompactorEngine(dir, true);
        }
        lastCompactWindowDirCreationSecsAt := windowAt;
        expired := true;
      }
    }

    /** Compactor(): expiry check, then the clean-up that opens the next window directory. */
    method Compact(viaTimerSkipChecks: bool, now: int, windowAt: int, stampAt: nat)
      requires Valid()
      modifies this
      ensures bootCounter == old(bootCounter)
      ensures if viaTimerSkipChecks || now - old(lastCompactWindowDirCreationSecsAt) >= cfg.windowSecs
              then
                && sensorDirTimestamp == stampAt && lastCompactWindowDirCreationSecsAt == windowAt
                && Value() == OpenWindow(ExpireWindow(cfg, ls, old(Value())), DirectoryName(bootCounter, stampAt))
              else
                && sensorDirTimestamp == old(sensorDirTimestamp)
                && lastCompactWindowDirCreationSecsAt == old(lastCompactWindowDirCreationSecsAt)
                && Value() == old(Value())
    {
      var expired := CheckCompactionWindowExpiry(viaTimerSkipChecks, now, windowAt);
      if expired {
        sensorDirTimestamp := stampAt;
        AppendEntry();
      }
    }
  }
}

/** What the compactor leaves behind when it is interrupted, and what the boot-time drain of the
    bookkeeper makes of it. */
module CompactorRecovery {
  import opened Text
  import opened RecordFile
  import opened BookOfErrors
  import opened Compactor

  // ---------------------------------------------------------------- closed forms

  function HifiOf(wd: WindowDir, stem: string): seq<Sample> {
    if stem in wd.hifi then wd.hifi[stem] else []
  }

  /** Another sample file of the directory is corrupt. */
  ghost predicate BesideTorn(wd: WindowDir, stem: string) {
    exists t :: t in wd.sensors && t != stem && wd.sensors[t].torn
  }

  /** No sample file beside a corrupt one has anything to keep or a hifi file already. Readable sample
      files alone make a directory settled, and so does a log without errors to select. */
  ghost predicate Settled(wd: WindowDir, ranges: seq<Range>) {
    ranges != [] ==>
      forall s :: s in wd.sensors && BesideTorn(wd, s) ==>
        s !in wd.hifi && Preserve(wd.sensors[s].records, ranges) == []
  }

  /** hifi with the files of the given stems rebuilt from their samples. */
  function Rebuilt(hifi: Hifi, sensors: map<string, RecFile<Sample>>, stems: set<string>, ranges: seq<Range>): Hifi
    requires stems <= sensors.Keys
  {
    map s | s in hifi.Keys + stems && (s in stems ==> Preserve(sensors[s].records, ranges) != [])
      :: if s in stems then Preserve(sensors[s].records, ranges) else hifi[s]
  }

  lemma RebuiltOne(hifi: Hifi, sensors: map<string, RecFile<Sample>>, stem: string, stems: set<string>,
                   ranges: seq<Range>)
    requires stems <= sensors.Keys && stem in sensors
    ensures Rebuilt(WithHifi(hifi, stem, Preserve(sensors[stem].records, ranges)), sensors, stems, ranges)
         == Rebuilt(hifi, sensors, stems + {stem}, ranges)
  {
  }

  function Stems(order: seq<string>): set<string> {
    set s | s in order
  }

  /** In a settled directory exactly the listed stems are rebuilt, in whatever order they are listed. */
  lemma {:induction false} CreateHifiClosed(wd: WindowDir, order: seq<string>, ranges: seq<Range>)
    requires Settled(wd, ranges) && ranges != [] && Stems(order) <= wd.sensors.Keys
    ensures CreateHifi(wd, order, ranges).hifi == Rebuilt(wd.hifi, wd.sensors, Stems(order), ranges)
    decreases |order|
  {
    hide Preserve;
    if order == [] {
      assert Rebuilt(wd.hifi, wd.sensors, {}, ranges) == wd.hifi;
    } else {
      var stem := order[0];
      assert stem in Stems(order) && Stems(order) == Stems(order[1..]) + {stem};
      var built := wd.(hifi := WithHifi(wd.hifi, stem, Preserve(wd.sensors[stem].records, ranges)));
      RebuiltOne(wd.hifi, wd.sensors, stem, Stems(order[1..]), ranges);
      BuiltStaysSettled(wd, stem, ranges);
      if wd.sensors[stem].torn {
        NothingElseToBuild(built, stem, Stems(order[1..]), ranges);
      } else {
        CreateHifiClosed(built, order[1..], ranges);
      }
    }
  }

  lemma BuiltStaysSettled(wd: WindowDir, stem: string, ranges: seq<Range>)
    requires Settled(wd, ranges) && stem in wd.sensors
    ensures Settled(wd.(hifi := WithHifi(wd.hifi, stem, Preserve(wd.sensors[stem].records, ranges))), ranges)
  {
    hide Preserve;
    var built := wd.(hifi := WithHifi(wd.hifi, stem, Preserve(wd.sensors[stem].records, ranges)));
    forall s | ranges != [] && s in wd.sensors && BesideTorn(built, s)
      ensures s !in built.hifi && Preserve(wd.sensors[s].records, ranges) == []
    {
      assert BesideTorn(wd, s);
    }
  }

  lemma NothingElseToBuild(wd: WindowDir, torn: string, stems: set<string>, ranges: seq<Range>)
    requires Settled(wd, ranges) && ranges != [] && torn in wd.sensors && wd.sensors[torn].torn
    requires stems <= wd.sensors.Keys
    requires wd.hifi == WithHifi(wd.hifi, torn, Preserve(wd.sensors[torn].records, ranges))
    ensures Rebuilt(wd.hifi, wd.sensors, stems, ranges) == wd.hifi
  {
    hide Preserve;
    forall s | s in stems && s != torn ensures s !in wd.hifi && Preserve(wd.sensors[s].records, ranges) == [] {
      assert BesideTorn(wd, s);
    }
  }

  function CompactedHifi(wd: WindowDir, ranges: seq<Range>): Hifi {
    if ranges == [] then wd.hifi else Rebuilt(wd.hifi, wd.sensors, wd.sensors.Keys, ranges)
  }

  /** The result does not depend on the order of the listing. */
  lemma CompactDirClosed(wd: WindowDir, order: seq<string>, ranges: seq<Range>)
    requires Settled(wd, ranges) && IsListing(order, wd.sensors.Keys)
    ensures CompactDir(wd, order, ranges) == WindowDir(map[], CompactedHifi(wd, ranges))
  {
    hide Settled;
    assert Stems(order) == wd.sensors.Keys;
    if ranges != [] {
      CreateHifiClosed(wd, order, ranges);
    }
  }

  /** In general a stem's hifi file is built exactly when no corrupt sample file comes before it
      in the listing; its raw samples are deleted either way. */
  lemma {:induction false} BuiltIffNothingTornBefore(wd: WindowDir, order: seq<string>, ranges: seq<Range>, k: nat)
    requires Unrepeated(order) && k < |order| && forall i :: 0 <= i < |order| ==> order[i] in wd.sensors
    ensures HifiOf(CreateHifi(wd, order, ranges), order[k])
         == if (exists i :: 0 <= i < k && wd.sensors[order[i]].torn) then HifiOf(wd, order[k])
            else Preserve(wd.sensors[order[k]].records, ranges)
    decreases |order|
  {
    var file := wd.sensors[order[0]];
    var built := wd.(hifi := WithHifi(wd.hifi, order[0], Preserve(file.records, ranges)));
    if k == 0 {
      if !file.torn {
        LaterStemsLeaveHifi(built, order[1..], ranges, order[0]);
      }
    } else if !file.torn {
      BuiltIffNothingTornBefore(built, order[1..], ranges, k - 1);
      assert order[1..][k - 1] == order[k];
      if exists i :: 0 <= i < k - 1 && built.sensors[order[1..][i]].torn {
        var i :| 0 <= i < k - 1 && built.sensors[order[1..][i]].torn;
        assert wd.sensors[order[i + 1]].torn;
      }
      if exists i :: 0 <= i < k && wd.sensors[order[i]].torn {
        var i :| 0 <= i < k && wd.sensors[order[i]].torn;
        assert i > 0 && built.sensors[order[1..][i - 1]].torn;
      }
    }
  }

  lemma {:induction false} LaterStemsLeaveHifi(wd: WindowDir, order: seq<string>, ranges: seq<Range>, stem: string)
    requires stem !in order
    ensures HifiOf(CreateHifi(wd, order, ranges), stem) == HifiOf(wd, stem)
    ensures stem in CreateHifi(wd, order, ranges).hifi <==> stem in wd.hifi
    decreases |order|
  {
    if order != [] && order[0] in wd.sensors && !wd.sensors[order[0]].torn {
      var file := wd.sensors[order[0]];
      LaterStemsLeaveHifi(wd.(hifi := WithHifi(wd.hifi, order[0], Preserve(file.records, ranges))),
                          order[1..], ranges, stem);
    }
  }

  // ---------------------------------------------------------------- single file operations

  /** One file operation of the engine, in the directory it compacts. */
  datatype FileOp = DropHifi(stem: string) | AddHifi(stem: string, s: Sample) | DropSensors(stem: string)

  function Adds(stem: string, kept: seq<Sample>): seq<FileOp> {
    if kept == [] then [] else Adds(stem, kept[..|kept| - 1]) + [AddHifi(stem, kept[|kept| - 1])]
  }

  /** The hifi files are built in listing order, up to the first corrupt sample file. */
  function BuildOps(wd: WindowDir, order: seq<string>, ranges: seq<Range>): seq<FileOp>
    requires Stems(order) <= wd.sensors.Keys
  {
    if order == [] then []
    else
      assert order[0] in Stems(order) && Stems(order[1..]) <= Stems(order);
      [DropHifi(order[0])] + Adds(order[0], Preserve(wd.sensors[order[0]].records, ranges))
      + if wd.sensors[order[0]].torn then [] else BuildOps(wd, order[1..], ranges)
  }

  /** Reading unreadable bytes takes the sample file away, and the building ends there. */
  function TornOps(wd: WindowDir, order: seq<string>): seq<FileOp>
    requires Stems(order) <= wd.sensors.Keys
  {
    if order == [] then []
    else
      assert order[0] in Stems(order) && Stems(order[1..]) <= Stems(order);
      if wd.sensors[order[0]].torn then [DropSensors(order[0])] else TornOps(wd, order[1..])
  }

  function RemoveOps(order: seq<string>): (ops: seq<FileOp>)
    ensures |ops| == |order|
  {
    if order == [] then [] else [DropSensors(order[0])] + RemoveOps(order[1..])
  }

  function ApplyOp(wd: WindowDir, op: FileOp): WindowDir {
    match op
    case DropHifi(stem) => wd.(hifi := wd.hifi - {stem})
    case AddHifi(stem, s) => wd.(hifi := wd.hifi[stem := HifiOf(wd, stem) + [s]])
    case DropSensors(stem) => wd.(sensors := wd.sensors - {stem})
  }

  function Apply(wd: WindowDir, ops: seq<FileOp>): WindowDir
    decreases |ops|
  {
    if ops == [] then wd else Apply(ApplyOp(wd, ops[0]), ops[1..])
  }

  lemma {:induction false} ApplyCat(wd: WindowDir, a: seq<FileOp>, b: seq<FileOp>)
    ensures Apply(wd, a + b) == Apply(Apply(wd, a), b)
    decreases |a|
  {
    if a == [] {
      assert a + b == b;
    } else {
      assert (a + b)[1..] == a[1..] + b;
      ApplyCat(ApplyOp(wd, a[0]), a[1..], b);
    }
  }

  lemma {:induction false} ApplyAdds(wd: WindowDir, stem: string, kept: seq<Sample>)
    requires stem !in wd.hifi
    ensures Apply(wd, Adds(stem, kept)) == wd.(hifi := WithHifi(wd.hifi, stem, kept))
  {
    if kept == [] {
      assert wd.hifi - {stem} == wd.hifi;
    } else {
      var n := |kept| - 1;
      ApplyAdds(wd, stem, kept[..n]);
      ApplyCat(wd, Adds(stem, kept[..n]), [AddHifi(stem, kept[n])]);
      WithHifiGrows(wd.hifi, stem, kept[..n], kept[n]);
      assert kept == kept[..n] + [kept[n]];
      var before := Apply(wd, Adds(stem, kept[..n]));
      assert Apply(before, [AddHifi(stem, kept[n])]) == ApplyOp(before, AddHifi(stem, kept[n]));
    }
  }

  lemma {:induction false} ApplyBuild(wd: WindowDir, order: seq<string>, ranges: seq<Range>)
    requires Stems(order) <= wd.sensors.Keys
    ensures Apply(wd, BuildOps(wd, order, ranges)) == WindowDir(wd.sensors, CreateHifi(wd, order, ranges).hifi)
    decreases |order|
  {
    hide Preserve, Apply, Adds, WithHifi;
    if order == [] {
      NoOps(wd);
    } else {
      var stem := order[0];
      assert stem in Stems(order) && Stems(order[1..]) <= Stems(order);
      var kept := Preserve(wd.sensors[stem].records, ranges);
      var built := wd.(hifi := WithHifi(wd.hifi, stem, kept));
      var rest := if wd.sensors[stem].torn then [] else BuildOps(wd, order[1..], ranges);
      RebuildOne(wd, stem, kept);
      ApplyCat(wd, [DropHifi(stem)] + Adds(stem, kept), rest);
      if wd.sensors[stem].torn {
        NoOps(built);
      } else {
        SameSamplesSameOps(wd, built, order[1..], ranges);
        ApplyBuild(built, order[1..], ranges);
      }
    }
  }

  lemma NoOps(wd: WindowDir)
    ensures Apply(wd, []) == wd
  {
  }

  /** One hifi file is rebuilt from scratch. */
  lemma RebuildOne(wd: WindowDir, stem: string, kept: seq<Sample>)
    ensures Apply(wd, [DropHifi(stem)] + Adds(stem, kept)) == wd.(hifi := WithHifi(wd.hifi, stem, kept))
  {
    hide Adds;
    var dropped := wd.(hifi := wd.hifi - {stem});
    ApplyAdds(dropped, stem, kept);
    assert WithHifi(dropped.hifi, stem, kept) == WithHifi(wd.hifi, stem, kept);
    assert ([DropHifi(stem)] + Adds(stem, kept))[1..] == Adds(stem, kept);
  }

  lemma {:induction false} SameSamplesSameOps(a: WindowDir, b: WindowDir, order: seq<string>, ranges: seq<Range>)
    requires a.sensors == b.sensors && Stems(order) <= a.sensors.Keys
    ensures BuildOps(a, order, ranges) == BuildOps(b, order, ranges)
  {
    if order != [] {
      assert order[0] in Stems(order) && Stems(order[1..]) <= Stems(order);
      SameSamplesSameOps(a, b, order[1..], ranges);
    }
  }

  lemma {:induction false} ApplyTorn(now: WindowDir, wd: WindowDir, order: seq<string>, ranges: seq<Range>)
    requires now.sensors == wd.sensors && Stems(order) <= wd.sensors.Keys
    ensures Apply(now, TornOps(wd, order)) == now.(sensors := CreateHifi(wd, order, ranges).sensors)
    ensures CreateHifi(wd, order, ranges).sensors.Keys <= wd.sensors.Keys
    decreases |order|
  {
    hide Preserve;
    if order != [] {
      var stem := order[0];
      assert stem in Stems(order) && Stems(order[1..]) <= Stems(order);
      var built := wd.(hifi := WithHifi(wd.hifi, stem, Preserve(wd.sensors[stem].records, ranges)));
      if wd.sensors[stem].torn {
        assert [DropSensors(stem)][1..] == [];
        assert Apply(now, [DropSensors(stem)]) == ApplyOp(now, DropSensors(stem));
      } else {
        SameSamplesSameTorn(wd, built, order[1..]);
        ApplyTorn(now, built, order[1..], ranges);
      }
    }
  }

  lemma {:induction false} SameSamplesSameTorn(a: WindowDir, b: WindowDir, order: seq<string>)
    requires a.sensors == b.sensors && Stems(order) <= a.sensors.Keys
    ensures TornOps(a, order) == TornOps(b, order)
  {
    if order != [] {
      assert order[0] in Stems(order) && Stems(order[1..]) <= Stems(order);
      SameSamplesSameTorn(a, b, order[1..]);
    }
  }

  lemma {:induction false} ApplyRemove(wd: WindowDir, order: seq<string>)
    ensures Apply(wd, RemoveOps(order)) == wd.(sensors := wd.sensors - Stems(order))
    decreases |order|
  {
    if order == [] {
      assert wd.sensors - {} == wd.sensors;
    } else {
      ApplyRemove(ApplyOp(wd, DropSensors(order[0])), order[1..]);
      assert Stems(order) == {order[0]} + Stems(order[1..]);
      assert wd.sensors - {order[0]} - Stems(order[1..]) == wd.sensors - Stems(order);
    }
  }

  /** Which sample files are there when the deletion begins. */
  function Left(wd: WindowDir, first: seq<string>, ranges: seq<Range>): set<string> {
    if ranges == [] then wd.sensors.Keys else CreateHifi(wd, first, ranges).sensors.Keys
  }

  /** The deletions: a corrupt file on the way, then every sample file that is left. */
  function DeleteOps(wd: WindowDir, first: seq<string>, second: seq<string>, ranges: seq<Range>): seq<FileOp>
    requires Stems(first) <= wd.sensors.Keys
  {
    (if ranges == [] then [] else TornOps(wd, first)) + RemoveOps(second)
  }

  /** Everything the engine does to one directory, operation by operation. */
  function DirOps(wd: WindowDir, first: seq<string>, second: seq<string>, ranges: seq<Range>): seq<FileOp>
    requires Stems(first) <= wd.sensors.Keys
  {
    (if ranges == [] then [] else BuildOps(wd, first, ranges)) + DeleteOps(wd, first, second, ranges)
  }

  /** What the building alone leaves. */
  lemma BuiltDir(wd: WindowDir, first: seq<string>, ranges: seq<Range>)
    requires Stems(first) <= wd.sensors.Keys
    ensures Apply(wd, if ranges == [] then [] else BuildOps(wd, first, ranges))
         == WindowDir(wd.sensors, if ranges == [] then wd.hifi else CreateHifi(wd, first, ranges).hifi)
  {
    if ranges != [] {
      ApplyBuild(wd, first, ranges);
    }
  }

  /** Carried out to the end, the operations are the compaction of the directory, corrupt files or not. */
  lemma AllOpsCompact(wd: WindowDir, first: seq<string>, second: seq<string>, ranges: seq<Range>)
    requires IsListing(first, wd.sensors.Keys) && IsListing(second, Left(wd, first, ranges))
    ensures Stems(first) <= wd.sensors.Keys
    ensures Apply(wd, DirOps(wd, first, second, ranges)) == CompactDir(wd, first, ranges)
  {
    hide CreateHifi, BuildOps, TornOps, RemoveOps, Apply;
    assert Stems(first) == wd.sensors.Keys && Stems(second) == Left(wd, first, ranges);
    BuiltDir(wd, first, ranges);
    ApplyCat(wd, if ranges == [] then [] else BuildOps(wd, first, ranges), DeleteOps(wd, first, second, ranges));
    var built := Apply(wd, if ranges == [] then [] else BuildOps(wd, first, ranges));
    if ranges != [] {
      ApplyTorn(built, wd, first, ranges);
      ApplyCat(built, TornOps(wd, first), RemoveOps(second));
    }
    var read := built.(sensors := if ranges == [] then wd.sensors else CreateHifi(wd, first, ranges).sensors);
    assert [] + RemoveOps(second) == RemoveOps(second);
    ApplyRemove(read, second);
    assert read.sensors - read.sensors.Keys == map[];
  }

  // ---------------------------------------------------------------- interrupted runs

  /** A directory on the way from wd to its compacted form: either only hifi files that will be
      rebuilt differ, or all hifi files are final and some samples are gone. */
  ghost predicate OnTheWay(wd: WindowDir, now: WindowDir, ranges: seq<Range>) {
    Building(wd, now, ranges) || Deleting(wd, now, ranges)
  }

  ghost predicate Building(wd: WindowDir, now: WindowDir, ranges: seq<Range>) {
    && now.sensors == wd.sensors && Settled(now, ranges) && (ranges == [] ==> now.hifi == wd.hifi)
    && forall s :: s !in wd.sensors ==> HifiOf(now, s) == HifiOf(wd, s) && (s in now.hifi <==> s in wd.hifi)
  }

  ghost predicate Deleting(wd: WindowDir, now: WindowDir, ranges: seq<Range>) {
    && now.hifi == CompactedHifi(wd, ranges) && now.sensors.Keys <= wd.sensors.Keys
    && forall s :: s in now.sensors ==> now.sensors[s] == wd.sensors[s]
  }

  lemma OnTheWayConverges(wd: WindowDir, now: WindowDir, ranges: seq<Range>)
    requires Settled(wd, ranges) && OnTheWay(wd, now, ranges)
    ensures Settled(now, ranges) && CompactedHifi(now, ranges) == CompactedHifi(wd, ranges)
  {
    hide Preserve;
    if ranges != [] {
      if Deleting(wd, now, ranges) {
        forall s | s in now.sensors && BesideTorn(now, s)
          ensures s !in now.hifi && Preserve(now.sensors[s].records, ranges) == []
        {
          assert BesideTorn(wd, s);
        }
      }
      SameResult(wd, now, ranges);
    }
  }

  lemma SameResult(wd: WindowDir, now: WindowDir, ranges: seq<Range>)
    requires ranges != [] && OnTheWay(wd, now, ranges)
    ensures CompactedHifi(now, ranges) == CompactedHifi(wd, ranges)
  {
    hide Preserve, Settled;
    var a, b := CompactedHifi(wd, ranges), CompactedHifi(now, ranges);
    assert a.Keys == b.Keys;
    assert forall s :: s in a ==> a[s] == b[s];
  }

  /** The operations that build: only files that will be rebuilt, none added beside a corrupt one. */
  ghost predicate Builds(wd: WindowDir, op: FileOp) {
    op.stem in wd.sensors && (op.DropHifi? || (op.AddHifi? && !BesideTorn(wd, op.stem)))
  }

  lemma {:induction false} BuildingGoesOn(wd: WindowDir, now: WindowDir, ops: seq<FileOp>, ranges: seq<Range>)
    requires Building(wd, now, ranges) && ranges != []
    requires forall i :: 0 <= i < |ops| ==> Builds(wd, ops[i])
    ensures Building(wd, Apply(now, ops), ranges)
    decreases |ops|
  {
    hide Building, Builds;
    if ops != [] {
      BuildingStep(wd, now, ops[0], ranges);
      BuildingGoesOn(wd, ApplyOp(now, ops[0]), ops[1..], ranges);
    }
  }

  lemma BuildingStep(wd: WindowDir, now: WindowDir, op: FileOp, ranges: seq<Range>)
    requires Building(wd, now, ranges) && ranges != [] && Builds(wd, op)
    ensures Building(wd, ApplyOp(now, op), ranges)
  {
    hide Preserve;
    var next := ApplyOp(now, op);
    forall s | s in next.sensors && BesideTorn(next, s)
      ensures s !in next.hifi && Preserve(next.sensors[s].records, ranges) == []
    {
      assert BesideTorn(wd, s) && BesideTorn(now, s);
    }
  }

  lemma {:induction false} BuildOpsBuild(wd: WindowDir, order: seq<string>, ranges: seq<Range>)
    requires Settled(wd, ranges) && ranges != [] && Stems(order) <= wd.sensors.Keys
    ensures forall i :: 0 <= i < |BuildOps(wd, order, ranges)| ==> Builds(wd, BuildOps(wd, order, ranges)[i])
  {
    hide Preserve;
    if order != [] {
      assert order[0] in Stems(order) && Stems(order[1..]) <= Stems(order);
      BuildOpsBuild(wd, order[1..], ranges);
      AddsBuild(wd, order[0], Preserve(wd.sensors[order[0]].records, ranges));
    }
  }

  lemma {:induction false} AddsBuild(wd: WindowDir, stem: string, kept: seq<Sample>)
    requires stem in wd.sensors && (kept != [] ==> !BesideTorn(wd, stem))
    ensures forall i :: 0 <= i < |Adds(stem, kept)| ==> Builds(wd, Adds(stem, kept)[i])
  {
    hide BesideTorn;
    if kept != [] {
      AddsBuild(wd, stem, kept[..|kept| - 1]);
    }
  }

  /** Deletions leave the hifi files as they are. */
  lemma {:induction false} DeletingGoesOn(wd: WindowDir, now: WindowDir, ops: seq<FileOp>, ranges: seq<Range>)
    requires Deleting(wd, now, ranges) && forall i :: 0 <= i < |ops| ==> ops[i].DropSensors?
    ensures Deleting(wd, Apply(now, ops), ranges)
    decreases |ops|
  {
    hide CompactedHifi;
    if ops != [] {
      DeletingGoesOn(wd, ApplyOp(now, ops[0]), ops[1..], ranges);
    }
  }

  lemma {:induction false} DeleteOpsDelete(wd: WindowDir, first: seq<string>, second: seq<string>, ranges: seq<Range>)
    requires Stems(first) <= wd.sensors.Keys
    ensures forall i :: 0 <= i < |DeleteOps(wd, first, second, ranges)| ==>
        DeleteOps(wd, first, second, ranges)[i].DropSensors?
  {
    TornOpsDelete(wd, first);
    RemoveOpsDelete(second);
  }

  lemma {:induction false} TornOpsDelete(wd: WindowDir, order: seq<string>)
    requires Stems(order) <= wd.sensors.Keys
    ensures forall i :: 0 <= i < |TornOps(wd, order)| ==> TornOps(wd, order)[i].DropSensors?
  {
    if order != [] {
      assert order[0] in Stems(order) && Stems(order[1..]) <= Stems(order);
      TornOpsDelete(wd, order[1..]);
    }
  }

  lemma {:induction false} RemoveOpsDelete(order: seq<string>)
    ensures forall i :: 0 <= i < |RemoveOps(order)| ==> RemoveOps(order)[i].DropSensors?
  {
    if order != [] {
      RemoveOpsDelete(order[1..]);
    }
  }

  /** Stopped after any number of operations, a settled directory is on the way. */
  lemma PrefixIsOnTheWay(wd: WindowDir, first: seq<string>, second: seq<string>, ranges: seq<Range>, k: nat)
    requires Settled(wd, ranges) && IsListing(first, wd.sensors.Keys)
    requires Stems(first) <= wd.sensors.Keys && k <= |DirOps(wd, first, second, ranges)|
    ensures OnTheWay(wd, Apply(wd, DirOps(wd, first, second, ranges)[..k]), ranges)
  {
    hide BuildOps, DeleteOps, CompactedHifi, Apply, Settled, CreateHifi;
    var build := if ranges == [] then [] else BuildOps(wd, first, ranges);
    var delete := DeleteOps(wd, first, second, ranges);
    var ops := DirOps(wd, first, second, ranges);
    if k > |build| {
      assert ops[..k] == build + delete[..k - |build|];
      ApplyCat(wd, build, delete[..k - |build|]);
      BuiltDir(wd, first, ranges);
      BuiltIsFinal(wd, first, ranges);
      DeleteOpsDelete(wd, first, second, ranges);
      DeletingGoesOn(wd, Apply(wd, build), delete[..k - |build|], ranges);
    } else {
      assert ops[..k] == build[..k];
      BuildingPrefix(wd, first, ranges, k);
    }
  }

  lemma BuiltIsFinal(wd: WindowDir, first: seq<string>, ranges: seq<Range>)
    requires Settled(wd, ranges) && IsListing(first, wd.sensors.Keys)
    ensures CompactedHifi(wd, ranges) == if ranges == [] then wd.hifi else CreateHifi(wd, first, ranges).hifi
  {
    hide Settled, CreateHifi;
    if ranges != [] {
      assert Stems(first) == wd.sensors.Keys;
      CreateHifiClosed(wd, first, ranges);
    }
  }

  lemma BuildingPrefix(wd: WindowDir, first: seq<string>, ranges: seq<Range>, k: nat)
    requires Settled(wd, ranges)
    requires Stems(first) <= wd.sensors.Keys && k <= |if ranges == [] then [] else BuildOps(wd, first, ranges)|
    ensures Building(wd, Apply(wd, (if ranges == [] then [] else BuildOps(wd, first, ranges))[..k]), ranges)
  {
    hide Settled, BuildOps, Builds;
    if ranges != [] {
      BuildOpsBuild(wd, first, ranges);
      BuildingGoesOn(wd, wd, BuildOps(wd, first, ranges)[..k], ranges);
    }
  }

  // ---------------------------------------------------------------- crash and restart

  /** One interrupted run of the engine: the listings it saw, how many operations it finished, and the
      boot event that the restart after it wrote. */
  datatype Crash = Crash(first: seq<string>, second: seq<string>, done: nat, boot: BootEvent)

  function RangesFor(cfg: Config, disk: Disk, dir: string): seq<Range> {
    var (least, far) := WindowBounds(cfg, dir);
    CheckedRanges(cfg, disk.errors, dir, least, far)
  }

  ghost predicate CrashOf(cfg: Config, disk: Disk, dir: string, c: Crash) {
    dir in disk.dirs &&
    var wd, ranges := disk.dirs[dir], RangesFor(cfg, disk, dir);
    && IsListing(c.first, wd.sensors.Keys) && IsListing(c.second, Left(wd, c.first, ranges))
    && Stems(c.first) <= wd.sensors.Keys
    && c.done <= |DirOps(wd, c.first, c.second, ranges)|
  }

  /** The disk after a run stopped before its bookkeeper rewrite and the restart that follows. */
  ghost function Interrupted(cfg: Config, disk: Disk, dir: string, c: Crash): Disk
    requires CrashOf(cfg, disk, dir, c)
  {
    var wd := disk.dirs[dir];
    var ops := DirOps(wd, c.first, c.second, RangesFor(cfg, disk, dir));
    Disk(disk.keeper, CheckedErrors(disk.errors, dir), Append(disk.boots, c.boot),
         disk.dirs[dir := Apply(wd, ops[..c.done])])
  }

  /** disk' is reached from disk by interrupted runs and restarts, one after the other. */
  ghost predicate CrashLoop(cfg: Config, disk: Disk, dir: string, crashes: seq<Crash>, disk': Disk)
    decreases |crashes|
  {
    if crashes == [] then disk' == disk
    else CrashOf(cfg, disk, dir, crashes[0])
         && CrashLoop(cfg, Interrupted(cfg, disk, dir, crashes[0]), dir, crashes[1..], disk')
  }

  ghost predicate Recoverable(cfg: Config, disk: Disk, dir: string) {
    dir in disk.dirs && Settled(disk.dirs[dir], RangesFor(cfg, disk, dir))
  }

  lemma EngineClosed(cfg: Config, ls: Lister, disk: Disk, dir: string)
    requires Recoverable(cfg, disk, dir) && ListsAll(ls)
    ensures Engine(cfg, ls, disk, dir, true) ==
            Disk(RemoveEntry(disk.keeper, dir, true), CheckedErrors(disk.errors, dir), disk.boots,
                 disk.dirs[dir := WindowDir(map[], CompactedHifi(disk.dirs[dir], RangesFor(cfg, disk, dir)))])
  {
    hide Settled, CheckedRanges, CheckedErrors, WindowBounds, RemoveEntry, CompactDir, CompactedHifi;
    var wd := disk.dirs[dir];
    assert IsListing(ls(dir, wd.sensors.Keys), wd.sensors.Keys);
    CompactDirClosed(wd, ls(dir, wd.sensors.Keys), RangesFor(cfg, disk, dir));
  }

  /** The log selects the same errors when it is read again. */
  lemma LogReadAgain(cfg: Config, disk: Disk, again: Disk, dir: string)
    requires again.errors == CheckedErrors(disk.errors, dir)
    ensures RangesFor(cfg, again, dir) == RangesFor(cfg, disk, dir) && CheckedErrors(again.errors, dir) == again.errors
  {
    hide SelectErrors, WindowBounds, SplitAt;
  }

  lemma OneCrashConverges(cfg: Config, ls: Lister, ls': Lister, disk: Disk, dir: string, c: Crash)
    requires Recoverable(cfg, disk, dir) && ListsAll(ls) && ListsAll(ls') && CrashOf(cfg, disk, dir, c)
    ensures Recoverable(cfg, Interrupted(cfg, disk, dir, c), dir)
    ensures Engine(cfg, ls', Interrupted(cfg, disk, dir, c), dir, true)
         == Engine(cfg, ls, disk, dir, true).(boots := Append(disk.boots, c.boot))
  {
    hide Settled, RangesFor, CheckedErrors, CompactedHifi, RemoveEntry, Engine, DirOps, OnTheWay, ListsAll, Left, Apply;
    var wd, ranges := disk.dirs[dir], RangesFor(cfg, disk, dir);
    var disk' := Interrupted(cfg, disk, dir, c);
    LogReadAgain(cfg, disk, disk', dir);
    PrefixIsOnTheWay(wd, c.first, c.second, ranges, c.done);
    OnTheWayConverges(wd, disk'.dirs[dir], ranges);
    EngineClosed(cfg, ls, disk, dir);
    EngineClosed(cfg, ls', disk', dir);
  }

  /** However often and wherever the engine is interrupted, the run that gets through leaves the
      same hifi files, the same deletions and the same bookkeeper as one never interrupted. */
  lemma {:induction false} CrashesConverge(cfg: Config, ls: Lister, ls': Lister, disk: Disk, dir: string,
                                           crashes: seq<Crash>, disk': Disk)
    requires Recoverable(cfg, disk, dir) && ListsAll(ls) && ListsAll(ls') && CrashLoop(cfg, disk, dir, crashes, disk')
    ensures Recoverable(cfg, disk', dir) && disk'.keeper == disk.keeper && (IsTorn(disk'.boots) <==> IsTorn(disk.boots))
    ensures Engine(cfg, ls', disk', dir, true) == Engine(cfg, ls, disk, dir, true).(boots := disk'.boots)
    decreases |crashes|
  {
    hide Recoverable, Engine, ListsAll, CrashOf, DirOps, Apply;
    if crashes == [] {
      EngineClosed(cfg, ls, disk, dir);
      EngineClosed(cfg, ls', disk, dir);
      EngineKeeper(cfg, ls, disk, dir, true);
    } else {
      OneCrashConverges(cfg, ls, ls', disk, dir, crashes[0]);
      CrashesConverge(cfg, ls', ls', Interrupted(cfg, disk, dir, crashes[0]), dir, crashes[1..], disk');
    }
  }

  /** Through a reboot: the drain of the interrupted disk ends as the drain of the disk on which the
      engine had finished. */
  lemma RebootConverges(cfg: Config, ls: Lister, ls': Lister, disk: Disk, dir: string, crashes: seq<Crash>, disk': Disk)
    requires Recoverable(cfg, disk, dir) && ListsAll(ls) && ListsAll(ls') && CrashLoop(cfg, disk, dir, crashes, disk')
    requires Records(disk.keeper) != [] && Records(disk.keeper)[0] == dir != "" && !IsTorn(disk.boots)
    requires DataFormat(disk'.boots, dir) == cfg.format
    ensures Drain(cfg, ls', disk') == Drain(cfg, ls', Engine(cfg, ls, disk, dir, true).(boots := disk'.boots))
  {
    hide Recoverable, Engine, ListsAll, CrashLoop, DataFormat, SplitAt;
    CrashesConverge(cfg, ls, ls', disk, dir, crashes, disk');
    assert CheckedBoots(disk'.boots, dir) == disk'.boots;
    assert disk'.(boots := disk'.boots) == disk';
  }

  /** The boot events of the restarts do not change the format looked up for a window opened before. */
  lemma {:induction false} RestartsKeepFormat(cfg: Config, disk: Disk, dir: string, boot: string, stamp: nat,
                                              crashes: seq<Crash>, disk': Disk)
    requires dir == DirectoryName(boot, stamp) && '_' !in boot && stamp < UINT64_MODULUS
    requires CrashLoop(cfg, disk, dir, crashes, disk')
    requires forall i :: 0 <= i < |crashes| ==> crashes[i].boot.time > stamp
    ensures DataFormat(disk'.boots, dir) == DataFormat(disk.boots, dir)
    decreases |crashes|
  {
    hide DataFormat, DirectoryName, CrashOf, DirOps, Apply;
    if crashes != [] {
      var next := Interrupted(cfg, disk, dir, crashes[0]);
      RestartsKeepFormat(cfg, next, dir, boot, stamp, crashes[1..], disk');
      LaterBootKeepsFormat(disk.boots, boot, stamp, crashes[0].boot);
    }
  }

  lemma LaterBootKeepsFormat(boots: Option<RecFile<BootEvent>>, boot: string, stamp: nat, e: BootEvent)
    requires '_' !in boot && stamp < UINT64_MODULUS && e.time > stamp
    ensures DataFormat(Append(boots, e), DirectoryName(boot, stamp)) == DataFormat(boots, DirectoryName(boot, stamp))
  {
    hide SplitAt, NatToString, DirectoryName, Stoull;
    DirectoryNameFields(boot, stamp);
    UnsignedOfPrinted(stamp);
    var events := Records(boots) + [e];
    assert events[..|events| - 1] == Records(boots);
    assert LatestFormat([], boot, stamp) == 0;
  }

  // ---------------------------------------------------------------- exactly where crashes converge

  /** Every order of the listings and every way of being interrupted lead to the same end. */
  ghost predicate Converges(cfg: Config, disk: Disk, dir: string) {
    forall ls, ls', crashes, disk' :: ListsAll(ls) && ListsAll(ls') && CrashLoop(cfg, disk, dir, crashes, disk') ==>
      Engine(cfg, ls', disk', dir, true) == Engine(cfg, ls, disk, dir, true).(boots := disk'.boots)
  }

  ghost function AnyListing(stems: set<string>): (order: seq<string>)
    ensures IsListing(order, stems)
  {
    if stems == {} then []
    else
      var x :| x in stems;
      [x] + AnyListing(stems - {x})
  }

  /** A directory iterator that reports x before anything else. */
  ghost function ListFrom(x: string): (ls: Lister)
    ensures ListsAll(ls) && forall dir, stems :: x in stems ==> ls(dir, stems) != [] && ls(dir, stems)[0] == x
  {
    (dir, stems) => if x in stems then [x] + AnyListing(stems - {x}) else AnyListing(stems)
  }

  lemma FirstStemDecides(wd: WindowDir, order: seq<string>, ranges: seq<Range>, stem: string)
    requires IsListing(order, wd.sensors.Keys) && order != [] && ranges != [] && stem in wd.sensors
    ensures var end := CompactDir(wd, order, ranges).hifi; var kept := Preserve(wd.sensors[stem].records, ranges);
            && (order[0] == stem ==> (stem in end <==> kept != []))
            && (order[0] != stem && wd.sensors[order[0]].torn ==> (stem in end <==> stem in wd.hifi))
            && (order[0] != stem && wd.sensors[order[0]].torn && stem in wd.hifi ==> end[stem] == wd.hifi[stem])
  {
    hide Preserve;
    var file := wd.sensors[order[0]];
    var built := wd.(hifi := WithHifi(wd.hifi, order[0], Preserve(file.records, ranges)));
    assert order[0] in wd.sensors.Keys;
    if order[0] == stem && !file.torn {
      assert forall i :: 0 < i < |order| ==> order[i] != stem;
      LaterStemsLeaveHifi(built, order[1..], ranges, stem);
    }
  }

  lemma EngineHifi(cfg: Config, ls: Lister, disk: Disk, dir: string)
    requires dir in disk.dirs
    ensures dir in Engine(cfg, ls, disk, dir, true).dirs
    ensures Engine(cfg, ls, disk, dir, true).dirs[dir]
         == CompactDir(disk.dirs[dir], ls(dir, disk.dirs[dir].sensors.Keys), RangesFor(cfg, disk, dir))
  {
  }

  /** Stopped right after it deleted the old hifi file of b. */
  lemma DropsFirst(wd: WindowDir, first: seq<string>, second: seq<string>, ranges: seq<Range>)
    requires Stems(first) <= wd.sensors.Keys && ranges != [] && first != []
    ensures |DirOps(wd, first, second, ranges)| >= 1
    ensures Apply(wd, DirOps(wd, first, second, ranges)[..1]) == wd.(hifi := wd.hifi - {first[0]})
  {
    var ops := DirOps(wd, first, second, ranges);
    assert ops[0] == DropHifi(first[0]);
    assert ops[..1] == [ops[0]] && [ops[0]][1..] == [];
    assert Apply(ApplyOp(wd, ops[0]), []) == ApplyOp(wd, ops[0]);
    assert [ops[0]] != [] && [ops[0]][0] == ops[0];
  }

  /** Otherwise two listings, or one listing and one crash, lead to different ends. */
  lemma UnsettledDiverges(cfg: Config, disk: Disk, dir: string, a: string, b: string)
    requires dir in disk.dirs && RangesFor(cfg, disk, dir) != []
    requires var wd := disk.dirs[dir]; a in wd.sensors && b in wd.sensors && a != b && wd.sensors[a].torn
    requires var wd := disk.dirs[dir];
             b in wd.hifi || Preserve(wd.sensors[b].records, RangesFor(cfg, disk, dir)) != []
    ensures !Converges(cfg, disk, dir)
  {
    hide RangesFor, Engine, ListsAll, CompactDir, Preserve, DirOps, Apply, CheckedErrors, CreateHifi, IsListing;
    var wd, ranges := disk.dirs[dir], RangesFor(cfg, disk, dir);
    var fromA, fromB := ListFrom(a), ListFrom(b);
    assert CrashLoop(cfg, disk, dir, [], disk);
    ListedBy(fromA, dir, wd.sensors.Keys);
    ListedBy(fromB, dir, wd.sensors.Keys);
    EngineHifi(cfg, fromA, disk, dir);
    EngineHifi(cfg, fromB, disk, dir);
    FirstStemDecides(wd, fromA(dir, wd.sensors.Keys), ranges, b);
    FirstStemDecides(wd, fromB(dir, wd.sensors.Keys), ranges, b);
    if Converges(cfg, disk, dir) {
      ConvergesAt(cfg, disk, dir, fromA, fromB, [], disk);
      assert b in wd.hifi;
      var first := fromB(dir, wd.sensors.Keys);
      StemsOfListing(first, wd.sensors.Keys);
      var second := AnyListing(Left(wd, first, ranges));
      DropsFirst(wd, first, second, ranges);
      var c := Crash(first, second, 1, BootEvent("", 0, 0));
      var next := Interrupted(cfg, disk, dir, c);
      assert [c][1..] == [] && [c][0] == c;
      assert CrashLoop(cfg, next, dir, [], next);
      assert CrashLoop(cfg, disk, dir, [c], next);
      LogReadAgain(cfg, disk, next, dir);
      EngineHifi(cfg, fromA, next, dir);
      FirstStemDecides(next.dirs[dir], fromA(dir, wd.sensors.Keys), ranges, b);
      ConvergesAt(cfg, disk, dir, fromA, fromA, [c], next);
      assert false;
    }
  }

  lemma ConvergesAt(cfg: Config, disk: Disk, dir: string, ls: Lister, ls': Lister, crashes: seq<Crash>, disk': Disk)
    requires Converges(cfg, disk, dir) && ListsAll(ls) && ListsAll(ls') && CrashLoop(cfg, disk, dir, crashes, disk')
    ensures Engine(cfg, ls', disk', dir, true) == Engine(cfg, ls, disk, dir, true).(boots := disk'.boots)
  {
  }

  lemma ListedBy(ls: Lister, dir: string, stems: set<string>)
    requires ListsAll(ls)
    ensures IsListing(ls(dir, stems), stems)
  {
  }

  lemma StemsOfListing(order: seq<string>, stems: set<string>)
    requires IsListing(order, stems)
    ensures Stems(order) == stems
  {
  }

  /** Interrupted compactions converge if and only if the directory is settled. */
  lemma CrashesConvergeIff(cfg: Config, disk: Disk, dir: string)
    requires dir in disk.dirs
    ensures Converges(cfg, disk, dir) <==> Settled(disk.dirs[dir], RangesFor(cfg, disk, dir))
  {
    hide RangesFor, Engine, ListsAll, CrashLoop, Preserve, Converges;
    var wd, ranges := disk.dirs[dir], RangesFor(cfg, disk, dir);
    if Settled(wd, ranges) {
      SettledConverges(cfg, disk, dir);
    } else {
      var b :| && b in wd.sensors && BesideTorn(wd, b)
               && !(b !in wd.hifi && Preserve(wd.sensors[b].records, ranges) == []);
      var a :| a in wd.sensors && a != b && wd.sensors[a].torn;
      UnsettledDiverges(cfg, disk, dir, a, b);
    }
  }

  lemma SettledConverges(cfg: Config, disk: Disk, dir: string)
    requires Recoverable(cfg, disk, dir)
    ensures Converges(cfg, disk, dir)
  {
    hide Recoverable, Engine, ListsAll, CrashLoop;
    forall ls, ls', crashes, disk' | ListsAll(ls) && ListsAll(ls') && CrashLoop(cfg, disk, dir, crashes, disk')
      ensures Engine(cfg, ls', disk', dir, true) == Engine(cfg, ls, disk, dir, true).(boots := disk'.boots)
    {
      CrashesConverge(cfg, ls, ls', disk, dir, crashes, disk');
    }
  }

  // ---------------------------------------------------------------- the boot-time drain

  /** What one bookkeeper entry brings about, whatever else the bookkeeper holds. */
  function DrainEntry(cfg: Config, ls: Lister, disk: Disk, entry: string): Disk {
    DrainOne(cfg, ls, disk.(keeper := Some(RecFile([entry], false))))
  }

  function DrainEntries(cfg: Config, ls: Lister, disk: Disk, entries: seq<string>): Disk
    decreases |entries|
  {
    if entries == [] then disk.(keeper := None)
    else DrainEntries(cfg, ls, DrainEntry(cfg, ls, disk, entries[0]), entries[1..])
  }

  lemma DrainOneIsEntry(cfg: Config, ls: Lister, disk: Disk)
    requires Records(disk.keeper) != []
    ensures DrainOne(cfg, ls, disk)
         == DrainEntry(cfg, ls, disk, Records(disk.keeper)[0]).(
              keeper := RemoveEntry(disk.keeper, Records(disk.keeper)[0], true))
  {
  }

  lemma EntryIgnoresKeeper(cfg: Config, ls: Lister, disk: Disk, keeper: Keeper, entry: string)
    ensures DrainEntry(cfg, ls, disk.(keeper := keeper), entry) == DrainEntry(cfg, ls, disk, entry)
  {
  }

  lemma EntriesIgnoreKeeper(cfg: Config, ls: Lister, disk: Disk, keeper: Keeper, entries: seq<string>)
    ensures DrainEntries(cfg, ls, disk.(keeper := keeper), entries) == DrainEntries(cfg, ls, disk, entries)
  {
    if entries != [] {
      EntryIgnoresKeeper(cfg, ls, disk, keeper, entries[0]);
    }
  }

  /** The drain ends, with nothing left in the bookkeeper, whatever was in it. A readable
      bookkeeper has every entry handled in order; of one that turns corrupt only the first
      entry is handled and the others are dropped uncompacted. */
  lemma {:induction false} DrainHandles(cfg: Config, ls: Lister, disk: Disk)
    ensures Records(Drain(cfg, ls, disk).keeper) == [] && !IsTorn(Drain(cfg, ls, disk).keeper)
    ensures var entries := Records(disk.keeper);
            var handled := if IsTorn(disk.keeper) && |entries| > 1 then entries[..1] else entries;
            Drain(cfg, ls, disk).(keeper := None) == DrainEntries(cfg, ls, disk, handled)
    decreases |Records(disk.keeper)|
  {
    hide DrainOne, Engine;
    var entries := Records(disk.keeper);
    if entries != [] {
      RemoveFirst(disk.keeper);
      DrainOneIsEntry(cfg, ls, disk);
      var next := DrainOne(cfg, ls, disk);
      DrainHandles(cfg, ls, next);
      var entry := DrainEntry(cfg, ls, disk, entries[0]);
      EntriesIgnoreKeeper(cfg, ls, entry, next.keeper, Records(next.keeper));
      assert entries[..1] == [entries[0]] && [entries[0]][1..] == [];
      assert |entries| == 1 ==> entries[1..] == [];
    }
  }

  // ---------------------------------------------------------------- copies that fail

  predicate Stalls(disk: Disk) {
    !IsTorn(disk.keeper) && |Records(disk.keeper)| > 1
  }

  /** Where nothing is left to copy, the copy does not matter. */
  lemma CopyOnlyMattersIfStalls(cfg: Config, ls: Lister, disk: Disk, copyOk: bool)
    requires Records(disk.keeper) != [] && !Stalls(disk)
    ensures DrainTry(cfg, ls, disk, copyOk) == DrainOne(cfg, ls, disk)
  {
    hide DataFormat, CheckedBoots, CheckedRanges, CheckedErrors, CompactDir, WindowBounds;
    SingleEntry(disk.keeper, copyOk);
  }

  lemma SingleEntry(keeper: Keeper, copyOk: bool)
    requires Records(keeper) != [] && (IsTorn(keeper) || |Records(keeper)| == 1)
    ensures RemoveEntry(keeper, Records(keeper)[0], copyOk) == None
  {
  }

  lemma FailedCopy(keeper: Keeper)
    requires !IsTorn(keeper) && |Records(keeper)| > 1
    ensures RemoveEntry(keeper, Records(keeper)[0], false) == keeper
  {
  }

  /** Selecting and compacting once more finds nothing left to do. */
  lemma EngineAgain(cfg: Config, ls: Lister, disk: Disk, dir: string, copyOk: bool, once: Disk)
    requires once == Engine(cfg, ls, disk, dir, false) && once.keeper == disk.keeper
    ensures Engine(cfg, ls, once, dir, copyOk) == Engine(cfg, ls, disk, dir, copyOk)
  {
    hide RemoveEntry, SelectErrors, WindowBounds, Preserve, SplitAt;
  }

  /** A round whose copy fails makes no progress, and the next round goes as if it had not been. */
  lemma FailedRoundStalls(cfg: Config, ls: Lister, disk: Disk, copyOk: bool)
    requires Stalls(disk)
    ensures DrainTry(cfg, ls, disk, false).keeper == disk.keeper
    ensures DrainTry(cfg, ls, DrainTry(cfg, ls, disk, false), copyOk) == DrainTry(cfg, ls, disk, copyOk)
  {
    hide Engine, RemoveEntry, LatestFormat, SplitAt;
    var dir := Records(disk.keeper)[0];
    var once := DrainTry(cfg, ls, disk, false);
    FailedCopy(disk.keeper);
    var read := disk.(boots := CheckedBoots(disk.boots, dir));
    EngineKeeper(cfg, ls, read, dir, false);
    if dir != "" && DataFormat(disk.boots, dir) == cfg.format {
      EngineAgain(cfg, ls, read, dir, copyOk, once);
    }
  }

  lemma EngineKeeper(cfg: Config, ls: Lister, disk: Disk, dir: string, copyOk: bool)
    ensures Engine(cfg, ls, disk, dir, copyOk).keeper == RemoveEntry(disk.keeper, dir, copyOk)
    ensures Engine(cfg, ls, disk, dir, copyOk).boots == disk.boots
  {
  }

  /** However many copies fail in between, a loop that ends leaves what a loop without failures leaves. */
  lemma {:induction false} FailuresOnlyDelay(cfg: Config, ls: Lister, disk: Disk, copies: seq<bool>)
    requires DrainRounds(cfg, ls, disk, copies).1
    ensures DrainRounds(cfg, ls, disk, copies).0 == Drain(cfg, ls, disk)
    decreases |copies|
  {
    hide DrainTry, DrainOne;
    if Records(disk.keeper) != [] {
      FailuresOnlyDelay(cfg, ls, DrainTry(cfg, ls, disk, copies[0]), copies[1..]);
      if Stalls(disk) && !copies[0] {
        FailedRoundStalls(cfg, ls, disk, true);
        TryIsOne(cfg, ls, disk);
        TryIsOne(cfg, ls, DrainTry(cfg, ls, disk, false));
      } else if !Stalls(disk) {
        CopyOnlyMattersIfStalls(cfg, ls, disk, copies[0]);
      } else {
        TryIsOne(cfg, ls, disk);
      }
    }
  }

  lemma TryIsOne(cfg: Config, ls: Lister, disk: Disk)
    requires Records(disk.keeper) != []
    ensures DrainTry(cfg, ls, disk, true) == DrainOne(cfg, ls, disk)
  {
  }

  function Successful(copies: seq<bool>): nat {
    if copies == [] then 0 else (if copies[0] then 1 else 0) + Successful(copies[1..])
  }

  /** The loop over a readable bookkeeper ends exactly when all but its last entry have been copied
      away and one more round has been made. */
  lemma {:induction false} DrainEndsIff(cfg: Config, ls: Lister, disk: Disk, copies: seq<bool>)
    requires !IsTorn(disk.keeper) && Records(disk.keeper) != []
    ensures DrainRounds(cfg, ls, disk, copies).1
       <==> copies != [] && Successful(copies[..|copies| - 1]) >= |Records(disk.keeper)| - 1
    decreases |copies|
  {
    hide DrainTry, Successful;
    if copies != [] {
      var next := DrainTry(cfg, ls, disk, copies[0]);
      KeeperAfterRound(cfg, ls, disk, copies[0]);
      if Records(next.keeper) != [] {
        DrainEndsIff(cfg, ls, next, copies[1..]);
        SuccessfulFront(copies);
      }
      NoneSuccessful();
    }
  }

  lemma NoneSuccessful()
    ensures Successful([]) == 0
  {
  }

  lemma SuccessfulFront(copies: seq<bool>)
    requires copies != []
    ensures |copies| > 1 ==>
              Successful(copies[..|copies| - 1])
              == (if copies[0] then 1 else 0) + Successful(copies[1..][..|copies| - 2])
  {
    if |copies| > 1 {
      assert copies[..|copies| - 1][1..] == copies[1..][..|copies| - 2];
    }
  }

  lemma KeeperAfterRound(cfg: Config, ls: Lister, disk: Disk, copyOk: bool)
    requires !IsTorn(disk.keeper) && Records(disk.keeper) != []
    ensures var next := DrainTry(cfg, ls, disk, copyOk); var n := |Records(disk.keeper)|;
            !IsTorn(next.keeper) && |Records(next.keeper)| == if copyOk || n == 1 then n - 1 else n
  {
    hide Engine, RemoveEntry, DataFormat, CheckedBoots;
    var dir := Records(disk.keeper)[0];
    EngineKeeper(cfg, ls, disk.(boots := CheckedBoots(disk.boots, dir)), dir, copyOk);
    RemoveFirst(disk.keeper);
    if |Records(disk.keeper)| == 1 {
      SingleEntry(disk.keeper, copyOk);
    } else {
      FailedCopy(disk.keeper);
    }
  }

  // ---------------------------------------------------------------- the format of a window

  predicate BootMatches(e: BootEvent, boot: string, stamp: nat) {
    e.bootId == boot && e.time <= stamp
  }

  /** The format looked up is that of the last event of the boot not after the stamp. */
  lemma {:induction false} LatestFormatAt(events: seq<BootEvent>, boot: string, stamp: nat, i: nat)
    requires i < |events| && BootMatches(events[i], boot, stamp)
    requires forall j :: i < j < |events| ==> !BootMatches(events[j], boot, stamp)
    ensures LatestFormat(events, boot, stamp) == events[i].format
  {
    var n := |events| - 1;
    if i < n {
      assert !BootMatches(events[n], boot, stamp);
      LatestFormatAt(events[..n], boot, stamp, i);
    }
  }

  lemma {:induction false} NoFormatKnown(events: seq<BootEvent>, boot: string, stamp: nat)
    requires forall i :: 0 <= i < |events| ==> !BootMatches(events[i], boot, stamp)
    ensures LatestFormat(events, boot, stamp) == 0
  {
    if events != [] {
      var n := |events| - 1;
      assert !BootMatches(events[n], boot, stamp);
      NoFormatKnown(events[..n], boot, stamp);
    }
  }

  /** The last event of the boot not after the stamp has that format; zero goes for no event. */
  ghost predicate LastBootHas(events: seq<BootEvent>, boot: string, stamp: nat, format: nat) {
    || (exists i :: 0 <= i < |events| && BootMatches(events[i], boot, stamp) && events[i].format == format
                    && forall j :: i < j < |events| ==> !BootMatches(events[j], boot, stamp))
    || (format == 0 && forall j :: 0 <= j < |events| ==> !BootMatches(events[j], boot, stamp))
  }

  lemma {:induction false} LatestFormatIff(events: seq<BootEvent>, boot: string, stamp: nat, format: nat)
    ensures LatestFormat(events, boot, stamp) == format <==> LastBootHas(events, boot, stamp, format)
  {
    hide LatestFormat, BootMatches;
    if exists i :: 0 <= i < |events| && BootMatches(events[i], boot, stamp) {
      var i := LastMatch(events, boot, stamp);
      LatestFormatAt(events, boot, stamp, i);
    } else {
      NoFormatKnown(events, boot, stamp);
    }
  }

  lemma {:induction false} LastMatch(events: seq<BootEvent>, boot: string, stamp: nat) returns (i: nat)
    requires exists i :: 0 <= i < |events| && BootMatches(events[i], boot, stamp)
    ensures i < |events| && BootMatches(events[i], boot, stamp)
    ensures forall j :: i < j < |events| ==> !BootMatches(events[j], boot, stamp)
  {
    hide BootMatches;
    var n := |events| - 1;
    if BootMatches(events[n], boot, stamp) {
      i := n;
    } else {
      var k :| 0 <= k < |events| && BootMatches(events[k], boot, stamp);
      assert events[..n][k] == events[k];
      i := LastMatch(events[..n], boot, stamp);
      forall j | i < j < |events| ensures !BootMatches(events[j], boot, stamp) {
        assert j < n ==> events[..n][j] == events[j];
      }
    }
  }

  /** The boot events the compactor goes by: none of a file with unreadable bytes. */
  function KnownBoots(boots: Option<RecFile<BootEvent>>): seq<BootEvent> {
    if IsTorn(boots) then [] else Records(boots)
  }

  /** What the drain makes of its first entry, whatever that is called. A name without four fields has
      format zero; a third field that is no number within 64 bits counts as stamp zero. */
  lemma DrainDecides(cfg: Config, ls: Lister, disk: Disk, blanks: string, sign: string, digits: string, rest: string)
    requires Records(disk.keeper) != [] && AllDigits(digits)
    requires var parts := SplitAt(Records(disk.keeper)[0], '_');
             |parts| == 4 ==> NumberText(parts[3], blanks, sign, digits, rest)
    ensures var dir := Records(disk.keeper)[0]; var parts := SplitAt(dir, '_');
            var n := DigitsValue(digits); var two64 := 0x1_0000_0000_0000_0000;
            var stamp := if digits == "" || n >= two64 then 0 else (if sign == "-" then 0 - n else n) % two64;
            var current := if |parts| == 4 then LastBootHas(KnownBoots(disk.boots), parts[1], stamp, cfg.format)
                           else cfg.format == 0;
            var read := if dir != "" && |parts| == 4 then disk.(boots := AfterFullRead(disk.boots)) else disk;
            DrainOne(cfg, ls, disk) == if dir != "" && current then Engine(cfg, ls, read, dir, true)
                                       else read.(keeper := RemoveEntry(disk.keeper, dir, true))
  {
    hide Engine, LatestFormat, SplitAt, RemoveEntry, LastBootHas, Stoull, DigitsValue;
    var parts := SplitAt(Records(disk.keeper)[0], '_');
    if |parts| == 4 {
      ParsersRead(parts[3], blanks, sign, digits, rest);
      LatestFormatIff(KnownBoots(disk.boots), parts[1], StampOrZero(parts[3]), cfg.format);
      NoFormatKnown([], parts[1], StampOrZero(parts[3]));
    }
  }

  /** So it compacts a window if and only if the last known event of its boot not after its stamp has the
      format of the day; otherwise it takes the entry off and leaves the directory as it is. The first
      window of a boot is stamped before its boot event is written, so a second between the two leaves it
      without one. */
  lemma DrainCompactsIff(cfg: Config, ls: Lister, disk: Disk, boot: string, stamp: nat)
    requires '_' !in boot && stamp < UINT64_MODULUS
    requires Records(disk.keeper) != [] && Records(disk.keeper)[0] == DirectoryName(boot, stamp)
    ensures var dir := DirectoryName(boot, stamp); var read := disk.(boots := AfterFullRead(disk.boots));
            DrainOne(cfg, ls, disk)
            == if LastBootHas(KnownBoots(disk.boots), boot, stamp, cfg.format)
               then Engine(cfg, ls, read, dir, true) else read.(keeper := RemoveEntry(disk.keeper, dir, true))
  {
    hide Engine, SplitAt, NatToString, DirectoryName, RemoveEntry, LastBootHas, DigitsValue, DrainOne, KnownBoots;
    DirectoryNameFields(boot, stamp);
    NatTextRoundTrip(stamp);
    WindowNamed(boot, stamp);
    DrainDecides(cfg, ls, disk, "", "", NatToString(stamp), "");
  }

  lemma WindowNamed(boot: string, stamp: nat)
    ensures DirectoryName(boot, stamp) != ""
  {
  }

  // ---------------------------------------------------------------- odd bookkeepers

  /** Removing an entry removes all up to it as well; of an entry that is not there, everything. */
  lemma {:induction false} RemovesThrough(before: seq<string>, dir: string, behind: seq<string>)
    requires dir !in before
    ensures Records(RemoveEntry(Some(RecFile(before + [dir] + behind, false)), dir, true)) == behind
    ensures RemoveEntry(Some(RecFile(before, false)), dir, true) == None
    decreases |before|
  {
    var all := before + [dir] + behind;
    if before == [] {
      assert all[1..] == behind;
    } else {
      assert all[1..] == before[1..] + [dir] + behind;
      RemovesThrough(before[1..], dir, behind);
    }
  }

  /** A window opened on a bookkeeper with unreadable bytes is not entered: the expiry after it compacts
      the first of two readable entries, if there are, and the bookkeeper is gone in any case. */
  lemma TornKeeperIsDropped(cfg: Config, ls: Lister, disk: Disk, dir: string)
    requires IsTorn(disk.keeper)
    ensures var begun, entries := OpenWindow(disk, dir), Records(disk.keeper);
            var after := ExpireWindow(cfg, ls, begun);
            after == if |entries| >= 2 && entries[0] != ""
                     then Engine(cfg, ls, begun, entries[0], true)
                     else begun.(keeper := None)
    ensures ExpireWindow(cfg, ls, OpenWindow(disk, dir)).keeper == None
  {
    hide WindowBounds, CheckedRanges, CheckedErrors, CompactDir;
  }

  /** Opening a window, be it one of a directory that exists already, leaves what is on disk alone. */
  lemma OpeningKeepsFiles(disk: Disk, dir: string)
    ensures var after := OpenWindow(disk, dir);
            && after.dirs.Keys == disk.dirs.Keys + {dir} && after.errors == disk.errors && after.boots == disk.boots
            && (forall d :: d in disk.dirs ==> after.dirs[d] == disk.dirs[d])
            && (dir !in disk.dirs ==> after.dirs[dir].sensors == map[] && after.dirs[dir].hifi == map[])
            && IsTorn(after.keeper) == IsTorn(disk.keeper)
            && (!IsTorn(disk.keeper) ==> Records(after.keeper) == Records(disk.keeper) + [dir])
  {
  }

  /** The lower bound of a window is the number in the fourth field of its name, and the upper bound the
      window length behind that if the field holds nothing else, but zero if it does. Without four fields
      both are zero. */
  lemma BoundsOfName(cfg: Config, dir: string, blanks: string, sign: string, digits: string, rest: string)
    requires AllDigits(digits)
    requires var parts := SplitAt(dir, '_'); |parts| == 4 ==> NumberText(parts[3], blanks, sign, digits, rest)
    ensures |SplitAt(dir, '_')| != 4 ==> WindowBounds(cfg, dir) == (0, 0)
    ensures |SplitAt(dir, '_')| == 4 ==>
            var n, v := DigitsValue(digits), if sign == "-" then 0 - DigitsValue(digits) else DigitsValue(digits);
            var least := if digits == "" then 0
                         else if n < UINT64_MODULUS then v % UINT64_MODULUS else UINT64_MODULUS - 1;
            var whole := if digits == "" then SplitAt(dir, '_')[3] == "" else rest == "";
            WindowBounds(cfg, dir) == (least, if whole then (least + cfg.windowSecs) % UINT64_MODULUS else 0)
  {
    hide SplitAt, DigitsValue, Strtoull;
    if |SplitAt(dir, '_')| == 4 {
      ParsersRead(SplitAt(dir, '_')[3], blanks, sign, digits, rest);
    }
  }
}

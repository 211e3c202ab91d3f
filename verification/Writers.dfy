/** Log rotation: after a compaction window the records of one retention policy get new writers in
    the new directory. */
module Writers {
  import opened Text

  datatype Id = Id(section: string, component: string, infoGroup: string, policy: string)

  /** An open sample file. */
  class Store {
    const path: string

    constructor (path: string)
      ensures this.path == path
    {
      this.path := path;
    }
  }

  /** The log writer and the statistics writer of a record. */
  type Pair = (Store?, Store?)

  class Rec {
    const id: Id
    var log: Store?
    var stat: Store?

    constructor (id: Id)
      ensures this.id == id && log == null && stat == null
    {
      this.id, log, stat := id, null, null;
    }
  }

  // ---------------------------------------------------------------- specification

  /** The joined key under which a triple counts as processed. */
  function JoinedKey(id: Id): string {
    id.section + "_" + id.component + "_" + id.infoGroup
  }

  predicate SameTriple(a: Id, b: Id) {
    a.section == b.section && a.component == b.component && a.infoGroup == b.infoGroup
  }

  function WriterPath(base: string, dir: string, id: Id, extension: string): string {
    var folder := base + "/" + dir + "/";
    if id.infoGroup == "FAULTS" then folder + (id.section + "." + id.component + ".Event_" + extension)
    else folder + (id.section + "." + id.component + extension)
  }

  function LogExtension(id: Id): string {
    if Contains(id.infoGroup, "Sensor.") then ".sensors.dat" else ".others.dat"
  }

  /** The first of the first n records that has the policy and the joined key. */
  function First(ids: seq<Id>, policy: string, key: string, n: nat): (r: Option<nat>)
    requires n <= |ids|
    ensures r.Some? ==> r.value < n
  {
    if n == 0 then None
    else
      var r := First(ids, policy, key, n - 1);
      if r.Some? then r
      else if ids[n - 1].policy == policy && JoinedKey(ids[n - 1]) == key then Some(n - 1) else None
  }

  /** The record on whose account record k got new writers. */
  function Server(ids: seq<Id>, policy: string, k: nat, n: nat): Option<nat>
    requires n <= |ids| && k < |ids|
  {
    var r := First(ids, policy, JoinedKey(ids[k]), n);
    if r.Some? && SameTriple(ids[r.value], ids[k]) then r else None
  }

  function Released(ids: seq<Id>, policy: string, before: seq<Pair>): seq<Pair>
    requires |ids| == |before|
  {
    seq(|ids|, k requires 0 <= k < |ids| => if ids[k].policy == policy then (null, null) else before[k])
  }

  /** The writers after the first n records: made[j] was opened on account of record j. */
  function Rotated(ids: seq<Id>, policy: string, before: seq<Pair>, made: map<nat, Pair>, n: nat): (r: seq<Pair>)
    requires n <= |ids| == |before|
    ensures |r| == |ids|
  {
    seq(|ids|, k requires 0 <= k < |ids| =>
      var j := Server(ids, policy, k, n);
      if j.Some? && j.value in made then made[j.value] else Released(ids, policy, before)[k])
  }

  ghost predicate InDirectory(p: Pair, base: string, dir: string, id: Id) {
    && p.0 != null && p.0.path == WriterPath(base, dir, id, LogExtension(id))
    && p.1 != null && p.1.path == WriterPath(base, dir, id, ".sensors.stat.dat")
  }

  /** Exactly the records that serve somebody opened writers, all of them in the directory. */
  ghost predicate MadeFor(ids: seq<Id>, policy: string, made: map<nat, Pair>, base: string, dir: string, n: nat)
    requires n <= |ids|
  {
    && (forall j :: j in made ==> j < n && InDirectory(made[j], base, dir, ids[j]))
    && (forall j :: 0 <= j < n && First(ids, policy, JoinedKey(ids[j]), n) == Some(j) ==> j in made)
  }

  /** The joined key tells the triples under the policy apart. */
  predicate KeyInjective(ids: seq<Id>, policy: string) {
    forall j, k ::
      (0 <= j < |ids| && 0 <= k < |ids| && ids[j].policy == policy && ids[k].policy == policy
       && JoinedKey(ids[j]) == JoinedKey(ids[k]))
      ==> SameTriple(ids[j], ids[k])
  }

  // ---------------------------------------------------------------- the loops

  class Recorder {
    const base: string
    const records: seq<Rec>

    ghost predicate Valid() {
      forall i, j :: 0 <= i < j < |records| ==> records[i] != records[j]
    }

    function Ids(): seq<Id> {
      seq(|records|, i requires 0 <= i < |records| => records[i].id)
    }

    ghost function Writers(): (w: seq<Pair>)
      reads records
      ensures |w| == |records|
    {
      seq(|records|, i requires 0 <= i < |records| reads records => (records[i].log, records[i].stat))
    }

    constructor (base: string, records: seq<Rec>)
      ensures this.base == base && this.records == records
    {
      this.base, this.records := base, records;
    }

    /** Releasing the writers of the policy's records. */
    method ReleaseWriters(policy: string)
      requires Valid()
      modifies records
      ensures Writers() == Released(Ids(), policy, old(Writers()))
    {
      for k := 0 to |records|
        invariant forall i :: 0 <= i < k ==>
          (records[i].log, records[i].stat) == Released(Ids(), policy, old(Writers()))[i]
        invariant forall i :: k <= i < |records| ==> (records[i].log, records[i].stat) == old(Writers())[i]
      {
        if records[k].id.policy == policy {
          records[k].log, records[k].stat := null, null;
        }
      }
    }

    /** All records of one triple take the same two writers. */
    method ShareWriters(id: Id, log: Store, stat: Store)
      requires Valid()
      modifies records
      ensures forall k :: 0 <= k < |records| ==>
                Writers()[k] == if SameTriple(id, records[k].id) then (log, stat) else old(Writers())[k]
    {
      for k := 0 to |records|
        invariant forall i :: 0 <= i < k ==>
          (records[i].log, records[i].stat) == if SameTriple(id, records[i].id) then (log, stat) else old(Writers())[i]
        invariant forall i :: k <= i < |records| ==> (records[i].log, records[i].stat) == old(Writers())[i]
      {
        if id.section == records[k].id.section && id.component == records[k].id.component
           && id.infoGroup == records[k].id.infoGroup {
          records[k].log, records[k].stat := log, stat;
        }
      }
    }

    method CreateSamplesWriter(dir: string, id: Id, extension: string) returns (store: Store)
      ensures fresh(store) && store.path == WriterPath(base, dir, id, extension)
    {
      var folder := base + "/" + dir + "/";
      var file := id.section + "." + id.component + extension;
      if id.infoGroup == "FAULTS" {
        file := id.section + "." + id.component + ".Event_" + extension;
      }
      store := new Store(folder + file);
    }

    /** New writers for one triple. */
    method RotateTriple(id: Id, dir: string) returns (ghost pair: Pair)
      requires Valid()
      modifies records
      ensures InDirectory(pair, base, dir, id) && fresh(pair.0) && fresh(pair.1)
      ensures forall k :: 0 <= k < |records| ==>
                Writers()[k] == if SameTriple(id, records[k].id) then pair else old(Writers())[k]
    {
      hide WriterPath, SameTriple;
      var log := CreateSamplesWriter(dir, id, ".dat");
      if Contains(id.infoGroup, "Sensor.") {
        log := CreateSamplesWriter(dir, id, ".sensors.dat");
      } else {
        log := CreateSamplesWriter(dir, id, ".others.dat");
      }
      var stat := CreateSamplesWriter(dir, id, ".sensors.stat.dat");
      ShareWriters(id, log, stat);
      pair := (log, stat);
    }

    method ModifySpecificRecords(policy: string, dir: string) returns (ghost made: map<nat, Pair>)
      requires Valid()
      modifies records
      ensures Writers() == Rotated(Ids(), policy, old(Writers()), made, |records|)
      ensures MadeFor(Ids(), policy, made, base, dir, |records|)
      ensures forall j :: j in made ==> fresh(made[j].0) && fresh(made[j].1)
    {
      hide Rotated, MadeFor, Released, InDirectory, SameTriple;
      ReleaseWriters(policy);
      made := map[];
      NothingMade(Ids(), policy, old(Writers()), base, dir);
      var processed: seq<string> := [];
      for i := 0 to |records|
        invariant Writers() == Rotated(Ids(), policy, old(Writers()), made, i)
        invariant MadeFor(Ids(), policy, made, base, dir, i)
        invariant forall key :: key in processed <==> First(Ids(), policy, key, i).Some?
        invariant forall j :: j in made ==> fresh(made[j].0) && fresh(made[j].1)
      {
        var outer := records[i].id;
        var key := outer.section + "_" + outer.component + "_" + outer.infoGroup;
        if outer.policy == policy && key !in processed {
          processed := processed + [key];
          ghost var before := Writers();
          ghost var pair := RotateTriple(outer, dir);
          Served(Ids(), policy, old(Writers()), made, i, pair, before, Writers(), base, dir);
          made := made[i := pair];
        } else {
          Unserved(Ids(), policy, old(Writers()), made, i, base, dir);
        }
      }
    }
  }

  // ---------------------------------------------------------------- one record

  ghost predicate Matches(id: Id, policy: string, key: string) {
    id.policy == policy && JoinedKey(id) == key
  }

  /** First is the first. */
  lemma {:induction false} FirstIsFirst(ids: seq<Id>, policy: string, key: string, n: nat)
    requires n <= |ids|
    ensures var f := First(ids, policy, key, n);
            && (f.None? ==> forall j :: 0 <= j < n ==> !Matches(ids[j], policy, key))
            && (f.Some? ==> Matches(ids[f.value], policy, key))
            && (f.Some? ==> forall j :: 0 <= j < f.value ==> !Matches(ids[j], policy, key))
  {
    if n > 0 {
      FirstIsFirst(ids, policy, key, n - 1);
    }
  }

  lemma NothingMade(ids: seq<Id>, policy: string, before: seq<Pair>, base: string, dir: string)
    requires |ids| == |before|
    ensures Rotated(ids, policy, before, map[], 0) == Released(ids, policy, before)
    ensures MadeFor(ids, policy, map[], base, dir, 0)
  {
  }

  lemma FirstStays(ids: seq<Id>, policy: string, key: string, i: nat)
    requires i < |ids| && !(ids[i].policy == policy && JoinedKey(ids[i]) == key && First(ids, policy, key, i).None?)
    ensures First(ids, policy, key, i + 1) == First(ids, policy, key, i)
  {
  }

  lemma Unserved(ids: seq<Id>, policy: string, before: seq<Pair>, made: map<nat, Pair>, i: nat, base: string,
                 dir: string)
    requires i < |ids| == |before| && MadeFor(ids, policy, made, base, dir, i)
    requires ids[i].policy != policy || First(ids, policy, JoinedKey(ids[i]), i).Some?
    ensures Rotated(ids, policy, before, made, i + 1) == Rotated(ids, policy, before, made, i)
    ensures MadeFor(ids, policy, made, base, dir, i + 1)
    ensures forall key :: First(ids, policy, key, i + 1) == First(ids, policy, key, i)
  {
    hide InDirectory, Released, JoinedKey;
    forall key ensures First(ids, policy, key, i + 1) == First(ids, policy, key, i) {
      FirstStays(ids, policy, key, i);
    }
  }

  lemma Served(ids: seq<Id>, policy: string, before: seq<Pair>, made: map<nat, Pair>, i: nat, pair: Pair,
               then': seq<Pair>, now: seq<Pair>, base: string, dir: string)
    requires i < |ids| == |before| && MadeFor(ids, policy, made, base, dir, i)
    requires ids[i].policy == policy && First(ids, policy, JoinedKey(ids[i]), i).None?
    requires then' == Rotated(ids, policy, before, made, i) && |now| == |ids|
    requires forall k :: 0 <= k < |ids| ==> now[k] == if SameTriple(ids[i], ids[k]) then pair else then'[k]
    requires InDirectory(pair, base, dir, ids[i])
    ensures now == Rotated(ids, policy, before, made[i := pair], i + 1)
    ensures MadeFor(ids, policy, made[i := pair], base, dir, i + 1)
    ensures forall key ::
              First(ids, policy, key, i + 1).Some? <==> key == JoinedKey(ids[i]) || First(ids, policy, key, i).Some?
  {
    hide InDirectory, Released, First, JoinedKey, MadeFor;
    FirstAfter(ids, policy, i);
    MadeOneMore(ids, policy, made, i, pair, base, dir);
    forall k | 0 <= k < |ids|
      ensures now[k] == Rotated(ids, policy, before, made[i := pair], i + 1)[k]
    {
      TripleHasKey(ids[i], ids[k]);
    }
  }

  lemma MadeOneMore(ids: seq<Id>, policy: string, made: map<nat, Pair>, i: nat, pair: Pair, base: string, dir: string)
    requires i < |ids| && MadeFor(ids, policy, made, base, dir, i) && InDirectory(pair, base, dir, ids[i])
    requires ids[i].policy == policy && First(ids, policy, JoinedKey(ids[i]), i).None?
    ensures MadeFor(ids, policy, made[i := pair], base, dir, i + 1)
  {
    hide InDirectory, First, JoinedKey;
    FirstAfter(ids, policy, i);
    forall j | 0 <= j < i + 1 && First(ids, policy, JoinedKey(ids[j]), i + 1) == Some(j) ensures j in made[i := pair] {
    }
  }

  lemma FirstAfter(ids: seq<Id>, policy: string, i: nat)
    requires i < |ids| && ids[i].policy == policy && First(ids, policy, JoinedKey(ids[i]), i).None?
    ensures First(ids, policy, JoinedKey(ids[i]), i + 1) == Some(i)
    ensures forall key :: key != JoinedKey(ids[i]) ==> First(ids, policy, key, i + 1) == First(ids, policy, key, i)
  {
  }

  lemma TripleHasKey(a: Id, b: Id)
    ensures SameTriple(a, b) ==> JoinedKey(a) == JoinedKey(b)
  {
  }

  // ---------------------------------------------------------------- what rotation achieves

  /** The writers left when all records have been visited. */
  ghost predicate Done(ids: seq<Id>, policy: string, before: seq<Pair>, made: map<nat, Pair>, base: string, dir: string,
                       now: seq<Pair>) {
    |ids| == |before| && now == Rotated(ids, policy, before, made, |ids|)
    && MadeFor(ids, policy, made, base, dir, |ids|)
  }

  /** Records of one triple share both writers, and those lie in the new directory. */
  lemma TriplesShareWriters(ids: seq<Id>, policy: string, before: seq<Pair>, made: map<nat, Pair>, base: string,
                            dir: string,
                            now: seq<Pair>, j: nat, k: nat)
    requires Done(ids, policy, before, made, base, dir, now)
    requires j < |ids| && k < |ids| && ids[j].policy == policy && SameTriple(ids[j], ids[k])
    ensures now[j] != (null, null) ==> now[k] == now[j] && InDirectory(now[k], base, dir, ids[k])
  {
    hide JoinedKey, InDirectory, SameTriple;
    TripleHasKey(ids[j], ids[k]);
    FirstIsFirst(ids, policy, JoinedKey(ids[j]), |ids|);
    var f := First(ids, policy, JoinedKey(ids[j]), |ids|);
    if f.Some? {
      TripleTransitive(ids[f.value], ids[j], ids[k]);
      if f.value in made && SameTriple(ids[f.value], ids[k]) {
        TripleSamePaths(made[f.value], base, dir, ids[f.value], ids[k]);
      }
    }
  }

  lemma TripleTransitive(a: Id, b: Id, c: Id)
    requires SameTriple(b, c)
    ensures SameTriple(a, b) <==> SameTriple(a, c)
  {
  }

  lemma TripleSamePaths(p: Pair, base: string, dir: string, a: Id, b: Id)
    requires SameTriple(a, b)
    ensures InDirectory(p, base, dir, a) <==> InDirectory(p, base, dir, b)
  {
  }

  /** Records whose triple nobody has under the policy keep their writers. */
  lemma OthersKeepWriters(ids: seq<Id>, policy: string, before: seq<Pair>, made: map<nat, Pair>, base: string,
                          dir: string,
                          now: seq<Pair>, k: nat)
    requires Done(ids, policy, before, made, base, dir, now) && k < |ids|
    requires forall j :: 0 <= j < |ids| && ids[j].policy == policy ==> !SameTriple(ids[j], ids[k])
    ensures now[k] == before[k]
  {
    FirstIsFirst(ids, policy, JoinedKey(ids[k]), |ids|);
    assert SameTriple(ids[k], ids[k]);
    assert ids[k].policy != policy;
    assert Server(ids, policy, k, |ids|).None?;
  }

  /** Every record under the policy ends with writers in the new directory exactly when the
      joined key tells the triples under the policy apart. */
  lemma AllRotatedIff(ids: seq<Id>, policy: string, before: seq<Pair>, made: map<nat, Pair>, base: string, dir: string,
                      now: seq<Pair>)
    requires Done(ids, policy, before, made, base, dir, now)
    ensures (forall k :: 0 <= k < |ids| && ids[k].policy == policy ==> InDirectory(now[k], base, dir, ids[k]))
       <==> KeyInjective(ids, policy)
  {
    hide InDirectory, JoinedKey;
    forall k | 0 <= k < |ids| && ids[k].policy == policy
      ensures var f := First(ids, policy, JoinedKey(ids[k]), |ids|);
              && f.Some? && Matches(ids[f.value], policy, JoinedKey(ids[k]))
              && (InDirectory(now[k], base, dir, ids[k]) <==> SameTriple(ids[f.value], ids[k]))
    {
      PolicyRecord(ids, policy, before, made, base, dir, now, k);
    }
    if forall k :: 0 <= k < |ids| && ids[k].policy == policy ==> InDirectory(now[k], base, dir, ids[k]) {
      forall j, k | 0 <= j < |ids| && 0 <= k < |ids| && ids[j].policy == policy && ids[k].policy == policy
                    && JoinedKey(ids[j]) == JoinedKey(ids[k])
        ensures SameTriple(ids[j], ids[k])
      {
        assert InDirectory(now[j], base, dir, ids[j]) && InDirectory(now[k], base, dir, ids[k]);
      }
    }
  }

  lemma PolicyRecord(ids: seq<Id>, policy: string, before: seq<Pair>, made: map<nat, Pair>, base: string, dir: string,
                     now: seq<Pair>, k: nat)
    requires Done(ids, policy, before, made, base, dir, now) && k < |ids| && ids[k].policy == policy
    ensures var f := First(ids, policy, JoinedKey(ids[k]), |ids|);
            && f.Some? && Matches(ids[f.value], policy, JoinedKey(ids[k]))
            && (InDirectory(now[k], base, dir, ids[k]) <==> SameTriple(ids[f.value], ids[k]))
    ensures now[k] == (null, null) || InDirectory(now[k], base, dir, ids[k])
  {
    hide JoinedKey;
    FirstIsFirst(ids, policy, JoinedKey(ids[k]), |ids|);
    assert Matches(ids[k], policy, JoinedKey(ids[k]));
  }

  // ---------------------------------------------------------------- where the files lie

  /** A file of that name right in a directory below the base path. */
  ghost predicate LiesIn(path: string, base: string, dir: string, name: string) {
    path == base + "/" + dir + "/" + name && '/' !in name
  }

  /** Section and component hold no slash, nor do directory names. */
  predicate PlainId(id: Id) {
    '/' !in id.section && '/' !in id.component
  }

  /** The name a writer's file gets: it begins with section and component, goes on with .Event_ for
      faults, and ends in the extension. */
  lemma WriterFileName(base: string, dir: string, id: Id, extension: string) returns (name: string)
    requires PlainId(id) && '/' !in extension
    ensures LiesIn(WriterPath(base, dir, id, extension), base, dir, name)
    ensures StartsWith(name, id.section + "." + id.component) && EndsWith(name, extension)
    ensures var middle := if id.infoGroup == "FAULTS" then |".Event_"| else 0;
            |name| == |id.section| + 1 + |id.component| + middle + |extension|
    ensures id.infoGroup == "FAULTS" ==> StartsWith(name, id.section + "." + id.component + ".Event_")
  {
    var device := id.section + "." + id.component;
    name := if id.infoGroup == "FAULTS" then device + ".Event_" + extension else device + extension;
    var folder := base + "/" + dir + "/";
    assert WriterPath(base, dir, id, extension) == folder + name;
    assert name[..|device|] == device && name[|name| - |extension|..] == extension;
    if id.infoGroup == "FAULTS" {
      assert name[..|device| + 7] == device + ".Event_";
    }
    forall i | 0 <= i < |name| ensures name[i] != '/' {
      assert name[i] in id.section || name[i] in id.component || name[i] in extension || name[i] in ".Event_";
    }
  }

  /** The writers a record under the policy ends with lie in the new directory. The log file of an info
      group with Sensor. in its name, and of no other, ends in .sensors.dat; log and statistics go to
      different files. */
  lemma NewWritersLieInDirectory(ids: seq<Id>, policy: string, before: seq<Pair>, made: map<nat, Pair>, base: string,
                                 dir: string, now: seq<Pair>, k: nat)
    returns (log: string, stat: string)
    requires Done(ids, policy, before, made, base, dir, now)
    requires k < |ids| && ids[k].policy == policy && now[k] != (null, null) && PlainId(ids[k])
    ensures now[k].0 != null && LiesIn(now[k].0.path, base, dir, log)
    ensures now[k].1 != null && LiesIn(now[k].1.path, base, dir, stat)
    ensures var device := ids[k].section + "." + ids[k].component;
            && StartsWith(log, device) && StartsWith(stat, device)
            && (ids[k].infoGroup == "FAULTS" ==>
                  StartsWith(log, device + ".Event_") && StartsWith(stat, device + ".Event_"))
    ensures EndsWith(log, ".sensors.dat")
       <==> Occurs(ids[k].infoGroup, "Sensor.")
    ensures EndsWith(log, ".sensors.dat") || EndsWith(log, ".others.dat")
    ensures EndsWith(stat, ".sensors.stat.dat") && log != stat
    ensures var front := |ids[k].section| + 1 + |ids[k].component|
                         + if ids[k].infoGroup == "FAULTS" then |".Event_"| else 0;
            && |log| == front + (if EndsWith(log, ".sensors.dat") then |".sensors.dat"| else |".others.dat"|)
            && |stat| == front + |".sensors.stat.dat"|
  {
    hide WriterPath, LogExtension, JoinedKey;
    PolicyRecord(ids, policy, before, made, base, dir, now, k);
    var id := ids[k];
    SensorLogs(id);
    log := WriterFileName(base, dir, id, LogExtension(id));
    stat := WriterFileName(base, dir, id, ".sensors.stat.dat");
    DifferentEnds(log, stat);
  }

  lemma SensorLogs(id: Id)
    ensures LogExtension(id) == ".sensors.dat" || LogExtension(id) == ".others.dat"
    ensures LogExtension(id) == ".sensors.dat"
       <==> Occurs(id.infoGroup, "Sensor.")
    ensures '/' !in LogExtension(id)
  {
    ContainsIff(id.infoGroup, "Sensor.");
  }

  lemma DifferentEnds(log: string, stat: string)
    requires EndsWith(log, ".sensors.dat") || EndsWith(log, ".others.dat")
    requires EndsWith(stat, ".sensors.stat.dat")
    ensures log != stat
    ensures EndsWith(log, ".sensors.dat") <==> !EndsWith(log, ".others.dat")
  {
    assert EndsWith(log, ".sensors.dat") ==> log[|log| - 5] == ".sensors.dat"[7] && log[|log| - 7] == ".sensors.dat"[5];
    assert EndsWith(log, ".others.dat") ==> log[|log| - 5] == ".others.dat"[6] && log[|log| - 7] == ".others.dat"[4];
    assert stat[|stat| - 5] == ".sensors.stat.dat"[12];
  }

  lemma FolderIsPrefix(path: string, base: string, dir: string, name: string)
    requires LiesIn(path, base, dir, name)
    ensures var n := |path| - |name| - 1;
            n == |base| + 1 + |dir| && path[n] == '/' && path[..n] == base + "/" + dir
    ensures forall i :: |path| - |name| <= i < |path| ==> path[i] != '/'
  {
    var n := |path| - |name| - 1;
    assert path[n + 1..] == name;
    forall i | n < i < |path| ensures path[i] != '/' {
      assert path[i] == name[i - n - 1];
    }
  }

  /** Writers in different directories are on different files, whatever their records. */
  lemma DirectoriesApart(path: string, path': string, base: string, dir: string, dir': string, name: string,
                         name': string)
    requires LiesIn(path, base, dir, name) && LiesIn(path', base, dir', name') && dir != dir'
    ensures path != path'
  {
    FolderIsPrefix(path, base, dir, name);
    FolderIsPrefix(path', base, dir', name');
    assert path == path' ==> |name| == |name'|;
    assert (base + "/" + dir)[|base| + 1..] == dir && (base + "/" + dir')[|base| + 1..] == dir';
  }

  /** Section A with component B_C and section A_B with component C join to one key: the second
      triple is left without writers. */
  lemma KeysCollide(policy: string)
    ensures !KeyInjective([Id("A", "B_C", "Config", policy), Id("A_B", "C", "Config", policy)], policy)
  {
    var ids := [Id("A", "B_C", "Config", policy), Id("A_B", "C", "Config", policy)];
    assert JoinedKey(ids[0]) == "A_B_C_Config" == JoinedKey(ids[1]);
    assert !SameTriple(ids[0], ids[1]);
  }
}

/** Which fetched values of a record reach its log file, and what the log of a record with the
    OnChange policy still tells about the values that were skipped. */
module ChangeLog {
  import opened Text

  /** The oneof of fdr_sample. */
  datatype Value = Unset | Str(s: string) | Int(n: int) | Real(x: real)

  /** paramvalueint64(), paramvaluestring() and paramvaluedouble(): the default when another field is set. */
  function AsInt(v: Value): int {
    if v.Int? then v.n else 0
  }

  function AsString(v: Value): string {
    if v.Str? then v.s else ""
  }

  function AsReal(v: Value): real {
    if v.Real? then v.x else 0.0
  }

  /** fdr_sample_ext. */
  datatype Data = Data(ts: nat, paramId: nat, paramType: string, value: Value)

  const NEVER_STORED: Data := Data(0, 0, "", Unset)

  predicate SameValues(left: Data, right: Data) {
    && left.paramId == right.paramId
    && left.paramType == right.paramType
    && if left.paramType == "Uint64" then AsInt(left.value) == AsInt(right.value)
       else AsString(left.value) == AsString(right.value)
  }

  datatype Policy = OnChange | EveryFetch | Periodic | Other

  datatype Schedule = Schedule(policy: Policy, fetchFreqSecs: int, storeFreqSecs: int)

  /** One record: what it fetched last, what it stored last, and its log file. */
  datatype Rec = Rec(data: Data, lastStored: Data, lastFetchedAt: int, lastStoredAt: int, log: seq<Data>) {
    predicate Skips(sch: Schedule, firstTime: bool, now: int) {
      match sch.policy
      case OnChange => !firstTime && SameValues(data, lastStored)
      case EveryFetch => lastFetchedAt - lastStoredAt < sch.fetchFreqSecs
      case Periodic => now - lastStoredAt < sch.storeFreqSecs
      case Other => false
    }

    /** The clock is read at the check and again after the append. */
    function Store(sch: Schedule, firstTime: bool, now: int, storedAt: int): Rec {
      if Skips(sch, firstTime, now) then this
      else this.(log := log + [data], lastStored := data, lastStoredAt := storedAt)
    }
  }

  /** The static flag inside same_data_values, shared by every record. */
  class FirstCall {
    var firstTime: bool

    constructor ()
      ensures firstTime
    {
      firstTime := true;
    }

    method SameDataValues(left: Data, right: Data) returns (same: bool)
      modifies this
      ensures same <==> !old(firstTime) && SameValues(left, right)
      ensures !firstTime
    {
      if firstTime {
        firstTime := false;
        return false;
      }
      if left.paramId != right.paramId || left.paramType != right.paramType {
        return false;
      }
      if left.paramType == "Uint64" {
        return AsInt(left.value) == AsInt(right.value);
      }
      return AsString(left.value) == AsString(right.value);
    }
  }

  class Record {
    const schedule: Schedule
    var data: Data
    var lastStored: Data
    var lastFetchedAt: int
    var lastStoredAt: int
    var log: seq<Data>

    ghost function State(): Rec
      reads this
    {
      Rec(data, lastStored, lastFetchedAt, lastStoredAt, log)
    }

    constructor (schedule: Schedule)
      ensures State() == Rec(NEVER_STORED, NEVER_STORED, 0, 0, []) && this.schedule == schedule
    {
      this.schedule := schedule;
      data, lastStored, lastFetchedAt, lastStoredAt, log := NEVER_STORED, NEVER_STORED, 0, 0, [];
    }

    method Store(first: FirstCall, now: int, storedAt: int)
      modifies this, first
      ensures State() == old(State()).Store(schedule, old(first.firstTime), now, storedAt)
      ensures first.firstTime <==> old(first.firstTime) && !schedule.policy.OnChange?
    {
      if schedule.policy.OnChange? {
        var same := first.SameDataValues(data, lastStored);
        if same {
          return;
        }
      } else if schedule.policy.EveryFetch? {
        if lastFetchedAt - lastStoredAt < schedule.fetchFreqSecs {
          return;
        }
      } else if schedule.policy.Periodic? {
        if now - lastStoredAt < schedule.storeFreqSecs {
          return;
        }
      }
      log := log + [data];
      lastStored := data;
      lastStoredAt := storedAt;
    }
  }

  // ---------------------------------------------------------------- records that store by time

  /** One call of Store(): the record's data and fetch time as they stand, the shared flag, the clock. */
  datatype Call = Call(data: Data, fetchedAt: int, firstTime: bool, now: int, storedAt: int)

  /** A record after any calls, of whatever data and at whatever times. */
  function Serve(sch: Schedule, calls: seq<Call>): Rec
    decreases |calls|
  {
    if calls == [] then Rec(NEVER_STORED, NEVER_STORED, 0, 0, [])
    else
      var n := |calls| - 1;
      var c := calls[n];
      Serve(sch, calls[..n]).(data := c.data, lastFetchedAt := c.fetchedAt).Store(sch, c.firstTime, c.now, c.storedAt)
  }

  /** stored are the indices of the calls behind the entries of the log, one each, in order. */
  ghost predicate LogOf(calls: seq<Call>, stored: seq<nat>, log: seq<Data>) {
    && |log| == |stored|
    && (forall i :: 0 <= i < |stored| ==> stored[i] < |calls| && log[i] == calls[stored[i]].data)
    && (forall i, j :: 0 <= i < j < |stored| ==> stored[i] < stored[j])
  }

  /** Call k comes behind the first i stores and not behind one more. */
  ghost predicate Behind(stored: seq<nat>, i: nat, k: nat) {
    i <= |stored| && (i > 0 ==> stored[i - 1] < k) && (i < |stored| ==> k <= stored[i])
  }

  /** The time of the store before that, zero for none. */
  ghost function StoreTime(calls: seq<Call>, stored: seq<nat>, i: nat): int
    requires i <= |stored| && forall j :: 0 <= j < |stored| ==> stored[j] < |calls|
  {
    if i == 0 then 0 else calls[stored[i - 1]].storedAt
  }

  /** A call, taken at its clock or its fetch time, is stored exactly if that is at least the period
      after the store before it. */
  ghost predicate EveryPeriod(calls: seq<Call>, stored: seq<nat>, byFetch: bool, period: int)
    requires forall j :: 0 <= j < |stored| ==> stored[j] < |calls|
  {
    forall i: nat, k: nat :: k < |calls| && Behind(stored, i, k) ==>
      var at := if byFetch then calls[k].fetchedAt else calls[k].now;
      (i < |stored| && stored[i] == k <==> at - StoreTime(calls, stored, i) >= period)
  }

  /** Which calls a log is made of, for the policies that go by time. */
  ghost predicate ByPolicy(sch: Schedule, calls: seq<Call>, stored: seq<nat>)
    requires forall j :: 0 <= j < |stored| ==> stored[j] < |calls|
  {
    match sch.policy
    case EveryFetch => EveryPeriod(calls, stored, true, sch.fetchFreqSecs)
    case Periodic => EveryPeriod(calls, stored, false, sch.storeFreqSecs)
    case Other => |stored| == |calls|
    case OnChange => true
  }

  /** Over every sequence of calls a periodic record stores exactly the calls that come its period after
      the store before, a record with a store per fetch those whose fetch does, and a record of any
      unknown policy all of them. */
  lemma {:induction false} StoresKeepPeriod(sch: Schedule, calls: seq<Call>) returns (stored: seq<nat>)
    ensures LogOf(calls, stored, Serve(sch, calls).log)
    ensures ByPolicy(sch, calls, stored)
    ensures Serve(sch, calls).lastStoredAt == StoreTime(calls, stored, |stored|)
    decreases |calls|
  {
    hide ByPolicy, EveryPeriod;
    if calls == [] {
      stored := [];
      NoCalls(sch);
    } else {
      var n := |calls| - 1;
      var before := StoresKeepPeriod(sch, calls[..n]);
      var r := Serve(sch, calls[..n]).(data := calls[n].data, lastFetchedAt := calls[n].fetchedAt);
      stored := if r.Skips(sch, calls[n].firstTime, calls[n].now) then before else before + [n];
      OneMoreCall(sch, calls, before, stored);
    }
  }

  lemma NoCalls(sch: Schedule)
    ensures ByPolicy(sch, [], [])
  {
  }

  lemma OneMoreCall(sch: Schedule, calls: seq<Call>, before: seq<nat>, stored: seq<nat>)
    requires calls != [] && forall j :: 0 <= j < |before| ==> before[j] < |calls| - 1
    requires ByPolicy(sch, calls[..|calls| - 1], before)
    requires stored == before || stored == before + [|calls| - 1]
    requires var n, last := |calls| - 1, StoreTime(calls[..|calls| - 1], before, |before|);
             var now := if sch.policy.EveryFetch? then calls[n].fetchedAt else calls[n].now;
             var period := if sch.policy.EveryFetch? then sch.fetchFreqSecs else sch.storeFreqSecs;
             !sch.policy.OnChange? ==> (stored == before <==> !sch.policy.Other? && now - last < period)
    ensures ByPolicy(sch, calls, stored)
  {
    if sch.policy.EveryFetch? {
      OneMorePeriod(calls, before, stored, true, sch.fetchFreqSecs);
    } else if sch.policy.Periodic? {
      OneMorePeriod(calls, before, stored, false, sch.storeFreqSecs);
    }
  }

  lemma OneMorePeriod(calls: seq<Call>, before: seq<nat>, stored: seq<nat>, byFetch: bool, period: int)
    requires calls != [] && forall j :: 0 <= j < |before| ==> before[j] < |calls| - 1
    requires EveryPeriod(calls[..|calls| - 1], before, byFetch, period)
    requires stored == before || stored == before + [|calls| - 1]
    requires var n, last := |calls| - 1, StoreTime(calls[..|calls| - 1], before, |before|);
             stored == before <==> (if byFetch then calls[n].fetchedAt else calls[n].now) - last < period
    ensures EveryPeriod(calls, stored, byFetch, period)
  {
    var n := |calls| - 1;
    forall i: nat, k: nat | k < |calls| && Behind(stored, i, k)
      ensures var at := if byFetch then calls[k].fetchedAt else calls[k].now;
              (i < |stored| && stored[i] == k <==> at - StoreTime(calls, stored, i) >= period)
    {
      if k < n {
        assert Behind(before, i, k);
      } else {
        assert i == |before|;
      }
    }
  }

  // ---------------------------------------------------------------- a record that stores on change

  /** One call of Store() with the record's data as it stands: refreshed before the call, left from
      an earlier one, or never fetched at all. */
  function Offer(r: Rec, firstTime: bool, d: Data): Rec {
    r.(data := d).Store(Schedule(OnChange, 0, 0), firstTime, d.ts, d.ts)
  }

  /** flags[i] is what the shared flag reads at call i; other records may have cleared it. */
  function Watch(flags: seq<bool>, offers: seq<Data>): Rec
    requires |flags| == |offers|
    decreases |offers|
  {
    if offers == [] then Rec(NEVER_STORED, NEVER_STORED, 0, 0, [])
    else
      var n := |offers| - 1;
      Offer(Watch(flags[..n], offers[..n]), flags[n], offers[n])
  }

  datatype Kind = IntKind | StringKind | RealKind

  predicate OfKind(v: Value, k: Kind) {
    match k
    case IntKind => v.Int?
    case StringKind => v.Str?
    case RealKind => v.Real?
  }

  datatype Param = Param(id: nat, typeName: string, kind: Kind)

  /** What a reader of the record gets from the field its values are in. */
  function Seen(p: Param, v: Value): Value {
    match p.kind
    case IntKind => Int(AsInt(v))
    case StringKind => Str(AsString(v))
    case RealKind => Real(AsReal(v))
  }

  /** The record's data: never refreshed, or refreshed with or without ever getting a value. */
  predicate DataOf(p: Param, d: Data) {
    || d == NEVER_STORED
    || (d.paramId == p.id && d.paramType == p.typeName && (d.value == Unset || OfKind(d.value, p.kind)))
  }

  /** Any sequence of Store() calls of one record, at any times. */
  ghost predicate Calls(p: Param, flags: seq<bool>, offers: seq<Data>) {
    && |flags| == |offers|
    && (forall i :: 0 < i < |flags| ==> !flags[i])
    && (forall i :: 0 <= i < |offers| ==> DataOf(p, offers[i]))
  }

  /** The comparison reads the field the values are in. */
  predicate Compares(p: Param) {
    match p.kind
    case IntKind => p.typeName == "Uint64"
    case StringKind => p.typeName != "Uint64"
    case RealKind => false
  }

  /** What the log shows at its end. */
  function Shown(p: Param, log: seq<Data>): Value {
    Seen(p, if log == [] then Unset else log[|log| - 1].value)
  }

  ghost predicate NoRepeats(p: Param, log: seq<Data>) {
    forall i :: 0 < i < |log| && log[i].paramId == log[i - 1].paramId && log[i].paramType == log[i - 1].paramType ==>
      Seen(p, log[i].value) != Seen(p, log[i - 1].value)
  }

  /** No entry repeats the one before it, and after every call the log ends in the value offered. */
  ghost predicate Lossless(p: Param, flags: seq<bool>, offers: seq<Data>)
    requires |flags| == |offers|
  {
    && NoRepeats(p, Watch(flags, offers).log)
    && forall i :: 0 <= i < |offers| ==>
      Shown(p, Watch(flags[..i + 1], offers[..i + 1]).log) == Seen(p, offers[i].value)
  }

  /** Between calls the log ends in the entry stored last, which shows the last value offered. */
  ghost predicate Settled(p: Param, r: Rec, offers: seq<Data>) {
    && NoRepeats(p, r.log) && DataOf(p, r.lastStored)
    && (r.log == [] ==> r.lastStored == NEVER_STORED)
    && (r.log != [] ==> r.lastStored == r.log[|r.log| - 1])
    && (offers == [] ==> r.log == [])
    && (offers != [] ==> Shown(p, r.log) == Seen(p, offers[|offers| - 1].value))
  }

  /** Where the comparison reads the right field it tells exactly the values that look different. */
  lemma ComparisonTells(p: Param, left: Data, right: Data)
    requires Compares(p) && DataOf(p, left) && DataOf(p, right)
    ensures SameValues(left, right)
       <==> && left.paramId == right.paramId && left.paramType == right.paramType
            && Seen(p, left.value) == Seen(p, right.value)
  {
  }

  lemma OfferKeepsSettled(p: Param, r: Rec, firstTime: bool, offers: seq<Data>, d: Data)
    requires Settled(p, r, offers) && Compares(p) && (firstTime ==> offers == []) && DataOf(p, d)
    ensures Settled(p, Offer(r, firstTime, d), offers + [d])
  {
    hide SameValues, Compares, Seen, DataOf;
    ComparisonTells(p, d, r.lastStored);
    assert NEVER_STORED.value == Unset;
  }

  lemma CallsPrefix(p: Param, flags: seq<bool>, offers: seq<Data>)
    requires Calls(p, flags, offers) && offers != []
    ensures Calls(p, flags[..|offers| - 1], offers[..|offers| - 1])
  {
    hide DataOf;
  }

  /** After every call the log ends in the value offered and the entry stored last. */
  lemma {:induction false} WatchStaysSettled(p: Param, flags: seq<bool>, offers: seq<Data>)
    requires Calls(p, flags, offers) && Compares(p)
    ensures Settled(p, Watch(flags, offers), offers)
    decreases |offers|
  {
    hide Settled, Offer, DataOf, Compares;
    if offers == [] {
      NothingIsSettled(p);
    } else {
      var n := |offers| - 1;
      CallsPrefix(p, flags, offers);
      WatchStaysSettled(p, flags[..n], offers[..n]);
      OfferKeepsSettled(p, Watch(flags[..n], offers[..n]), flags[n], offers[..n], offers[n]);
      assert offers[..n] + [offers[n]] == offers;
    }
  }

  lemma NothingIsSettled(p: Param)
    ensures Settled(p, Rec(NEVER_STORED, NEVER_STORED, 0, 0, []), [])
  {
  }

  lemma WatchIsLossless(p: Param, flags: seq<bool>, offers: seq<Data>)
    requires Calls(p, flags, offers) && Compares(p)
    ensures Lossless(p, flags, offers)
  {
    hide Watch, Compares, DataOf, Seen;
    WatchStaysSettled(p, flags, offers);
    forall i | 0 <= i < |offers|
      ensures Shown(p, Watch(flags[..i + 1], offers[..i + 1]).log) == Seen(p, offers[i].value)
    {
      WatchStaysSettled(p, flags[..i + 1], offers[..i + 1]);
    }
  }

  /** Two different values that the comparison cannot tell apart: the second is dropped. */
  lemma IndistinctValuesAreLost(p: Param) returns (flags: seq<bool>, offers: seq<Data>)
    requires !Compares(p)
    ensures Calls(p, flags, offers) && !Lossless(p, flags, offers)
  {
    var a := match p.kind case IntKind => Int(0) case StringKind => Str("") case RealKind => Real(1.0);
    var b := match p.kind case IntKind => Int(1) case StringKind => Str("b") case RealKind => Real(2.0);
    var first, second := Data(1, p.id, p.typeName, a), Data(2, p.id, p.typeName, b);
    flags, offers := [true, false], [first, second];
    WatchOne(true, first);
    assert flags[..1] == [true] && offers[..1] == [first] && flags[..2] == flags && offers[..2] == offers;
    assert SameValues(second, first);
    assert Watch(flags[..2], offers[..2]).log == [first];
    assert Seen(p, a) != Seen(p, b);
  }

  lemma WatchOne(flag: bool, d: Data)
    ensures Watch([flag], [d]) == Offer(Rec(NEVER_STORED, NEVER_STORED, 0, 0, []), flag, d)
  {
    var none: seq<bool>, nothing: seq<Data> := [], [];
    assert [flag][..0] == none && [d][..0] == nothing;
  }

  /** A field that was never set reads as zero, or as the empty string: fetched so, it is no change. */
  lemma UnsetReadsAsDefault(p: Param)
    requires Compares(p)
    ensures var unset := Data(1, p.id, p.typeName, Unset);
            var default := Data(2, p.id, p.typeName, if p.kind.IntKind? then Int(0) else Str(""));
            Watch([true, false], [unset, default]).log == [unset]
  {
    var unset := Data(1, p.id, p.typeName, Unset);
    var default := Data(2, p.id, p.typeName, if p.kind.IntKind? then Int(0) else Str(""));
    WatchOne(true, unset);
    assert [true, false][..1] == [true] && [unset, default][..1] == [unset];
  }

  /** On-change logging is lossless over every sequence of calls exactly for the records whose
      values the comparison reads: integers typed Uint64, or strings not typed so. */
  lemma LosslessIff(p: Param)
    ensures (forall flags: seq<bool>, offers: seq<Data> :: Calls(p, flags, offers) ==> Lossless(p, flags, offers))
       <==> Compares(p)
  {
    hide Lossless;
    if Compares(p) {
      forall flags: seq<bool>, offers: seq<Data> | Calls(p, flags, offers) ensures Lossless(p, flags, offers) {
        WatchIsLossless(p, flags, offers);
      }
    } else {
      var flags, offers := IndistinctValuesAreLost(p);
    }
  }

  // ---------------------------------------------------------------- reading the log by time

  /** The value a reader of the log infers for time t. */
  function LookUp(log: seq<Data>, t: nat): Value {
    if log == [] then Unset
    else if log[|log| - 1].ts <= t then log[|log| - 1].value
    else LookUp(log[..|log| - 1], t)
  }

  /** A clock that never goes back. */
  ghost predicate Ordered(offers: seq<Data>) {
    forall i, j :: 0 <= i < j < |offers| ==> offers[i].ts <= offers[j].ts
  }

  ghost predicate OneValuePerSecond(p: Param, offers: seq<Data>) {
    forall i, j :: 0 <= i < j < |offers| && offers[i].ts == offers[j].ts ==>
      Seen(p, offers[i].value) == Seen(p, offers[j].value)
  }

  /** The log read as a step function of time shows every value that was offered. */
  ghost predicate ReadsBack(p: Param, log: seq<Data>, offers: seq<Data>) {
    forall i :: 0 <= i < |offers| ==> Seen(p, LookUp(log, offers[i].ts)) == Seen(p, offers[i].value)
  }

  lemma OfferReadsBack(p: Param, r: Rec, firstTime: bool, offers: seq<Data>, d: Data)
    requires Settled(p, r, offers) && Settled(p, Offer(r, firstTime, d), offers + [d]) && ReadsBack(p, r.log, offers)
    requires Ordered(offers + [d]) && OneValuePerSecond(p, offers + [d])
    requires offers != [] && r.log != [] ==> r.lastStored.ts <= offers[|offers| - 1].ts
    ensures ReadsBack(p, Offer(r, firstTime, d).log, offers + [d])
    ensures Offer(r, firstTime, d).log != [] ==> Offer(r, firstTime, d).lastStored.ts <= d.ts
  {
    hide Seen, SameValues, NoRepeats, DataOf;
    var all, log := offers + [d], Offer(r, firstTime, d).log;
    assert all[|offers|] == d;
    if offers != [] {
      assert all[|offers| - 1] == offers[|offers| - 1];
    }
    forall i | 0 <= i < |all| ensures Seen(p, LookUp(log, all[i].ts)) == Seen(p, all[i].value) {
      if i < |offers| {
        assert all[i] == offers[i];
        if log != r.log {
          assert log[..|log| - 1] == r.log;
        }
      }
    }
  }

  lemma {:induction false} WatchReadsBack(p: Param, flags: seq<bool>, offers: seq<Data>)
    requires Calls(p, flags, offers) && Compares(p) && Ordered(offers) && OneValuePerSecond(p, offers)
    ensures var r := Watch(flags, offers);
            ReadsBack(p, r.log, offers) && (offers != [] && r.log != [] ==> r.lastStored.ts <= offers[|offers| - 1].ts)
    decreases |offers|
  {
    hide Settled, Offer, Compares, ReadsBack, Seen, DataOf;
    if offers == [] {
      NothingReadsBack(p);
    } else {
      var n := |offers| - 1;
      CallsPrefix(p, flags, offers);
      WatchReadsBack(p, flags[..n], offers[..n]);
      WatchStaysSettled(p, flags[..n], offers[..n]);
      WatchStaysSettled(p, flags, offers);
      assert offers[..n] + [offers[n]] == offers;
      OfferReadsBack(p, Watch(flags[..n], offers[..n]), flags[n], offers[..n], offers[n]);
    }
  }

  lemma NothingReadsBack(p: Param)
    ensures ReadsBack(p, [], [])
  {
  }

  /** Read by time, the log gives back every offered value exactly when no second holds two
      different ones. */
  lemma ReadsBackIff(p: Param, flags: seq<bool>, offers: seq<Data>)
    requires Calls(p, flags, offers) && Compares(p) && Ordered(offers)
    ensures ReadsBack(p, Watch(flags, offers).log, offers) <==> OneValuePerSecond(p, offers)
  {
    hide Watch, Compares, DataOf, Seen;
    if OneValuePerSecond(p, offers) {
      WatchReadsBack(p, flags, offers);
    }
  }
}

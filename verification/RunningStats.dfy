/** The running statistics of one record and the stat records it flushes. Values are held on
    the grid of thousandths that the recorder rounds to, times in whole seconds. */
module RunningStats {
  import opened Reals
  import CL = ChangeLog

  datatype Sample = Sample(ts: nat, value: int, paramId: nat)

  /** std::round: halves go away from zero. */
  function RoundAway(x: real): int {
    if x >= 0.0 then (x + 0.5).Floor else -((-x + 0.5).Floor)
  }

  /** What the statistics make of a sample: by its type they read one field or the other, integers
      exactly and doubles rounded to three decimals. */
  function Reading(paramType: string, v: CL.Value): int {
    if paramType == "Uint64" then 1000 * CL.AsInt(v) else RoundAway(CL.AsReal(v) * 1000.0)
  }

  /** fdr_stat; avg is the sum until the record is written. Unset fields read as zero. */
  datatype Stat = Stat(paramId: nat, numSamples: nat, avg: int, min: int, max: int,
                       minTs: nat, maxTs: nat, fromTime: nat, toTime: nat)

  const CLEARED: Stat := Stat(0, 0, 0, 0, 0, 0, 0, 0, 0)

  /** The state after one more sample. */
  function Engine(r: Stat, s: Sample): Stat {
    var least := if r.minTs == 0 || s.value < r.min then s.value else r.min;
    var greatest := if r.maxTs == 0 || s.value > r.max then s.value else r.max;
    Stat(s.paramId,
         r.numSamples + 1,
         r.avg + s.value,
         least,
         greatest,
         if r.minTs == 0 || least == s.value then s.ts else r.minTs,
         if r.maxTs == 0 || greatest == s.value then s.ts else r.maxTs,
         if r.fromTime == 0 then s.ts else r.fromTime,
         s.ts)
  }

  /** The mean on the grid. */
  function Mean(sum: int, n: nat): int
    requires n > 0
  {
    RoundAway(sum as real / n as real)
  }

  /** One appended stat record and the directory of the file it went to. */
  datatype Row = Row(dir: string, stat: Stat)

  datatype State = State(running: Stat, dir: string, rows: seq<Row>) {
    function Feed(s: Sample): State {
      this.(running := Engine(running, s))
    }

    function Flush(): State {
      if running.numSamples == 0 then this.(running := CLEARED)
      else
        var row := Row(dir, running.(avg := Mean(running.avg, running.numSamples)));
        State(CLEARED, dir, rows + [row])
    }

    /** The window expiry flushes first and only then moves to the new directory. */
    function NextWindow(newDir: string): State {
      Flush().(dir := newDir)
    }
  }

  class StatRecord {
    var runningStatus: Stat
    var statDir: string
    var statRows: seq<Row>

    ghost function Value(): State
      reads this
    {
      State(runningStatus, statDir, statRows)
    }

    constructor (dir: string)
      ensures Value() == State(CLEARED, dir, [])
    {
      runningStatus, statDir, statRows := CLEARED, dir, [];
    }

    method RunningStatisticEngine(d: CL.Data)
      modifies this
      ensures Value() == old(Value()).Feed(Sample(d.ts, Reading(d.paramType, d.value), d.paramId))
    {
      hide RoundAway, CL.AsInt, CL.AsReal;
      var current: int;
      if d.paramType == "Uint64" {
        current := 1000 * CL.AsInt(d.value);
      } else {
        current := RoundAway(CL.AsReal(d.value) * 1000.0);
      }
      var s := Sample(d.ts, current, d.paramId);
      runningStatus := runningStatus.(paramId := s.paramId);
      runningStatus := runningStatus.(numSamples := runningStatus.numSamples + 1);
      runningStatus := runningStatus.(avg := runningStatus.avg + s.value);
      if runningStatus.minTs == 0 {
        runningStatus := runningStatus.(min := s.value, minTs := s.ts);
      } else {
        var minValue := if s.value < runningStatus.min then s.value else runningStatus.min;
        runningStatus := runningStatus.(min := minValue);
        if minValue == s.value {
          runningStatus := runningStatus.(minTs := s.ts);
        }
      }
      if runningStatus.maxTs == 0 {
        runningStatus := runningStatus.(max := s.value, maxTs := s.ts);
      } else {
        var maxValue := if s.value > runningStatus.max then s.value else runningStatus.max;
        runningStatus := runningStatus.(max := maxValue);
        if maxValue == s.value {
          runningStatus := runningStatus.(maxTs := s.ts);
        }
      }
      runningStatus := runningStatus.(fromTime := if runningStatus.fromTime == 0 then s.ts else runningStatus.fromTime);
      runningStatus := runningStatus.(toTime := s.ts);
    }

    method AppendRunningStat()
      modifies this
      ensures statDir == old(statDir)
      ensures old(runningStatus).numSamples == 0 ==> Value() == old(Value())
      ensures old(runningStatus).numSamples > 0 ==>
                statRows == old(statRows) + [Row(statDir, runningStatus)] &&
                runningStatus == old(runningStatus).(avg := Mean(old(runningStatus).avg, old(runningStatus).numSamples))
    {
      if runningStatus.numSamples == 0 {
        return;
      }
      runningStatus := runningStatus.(avg := Mean(runningStatus.avg, runningStatus.numSamples));
      statRows := statRows + [Row(statDir, runningStatus)];
    }

    method SubWindowExpiry()
      modifies this
      ensures Value() == old(Value()).Flush()
    {
      AppendRunningStat();
      runningStatus := CLEARED;
    }

    method WindowExpiry(newDir: string)
      modifies this
      ensures Value() == old(Value()).NextWindow(newDir)
    {
      SubWindowExpiry();
      statDir := newDir;
    }
  }

  // ---------------------------------------------------------------- what a stat means

  function Total(samples: seq<Sample>): int {
    if samples == [] then 0 else Total(samples[..|samples| - 1]) + samples[|samples| - 1].value
  }

  /** v is the least value, and ts the time of the latest sample that has it. */
  ghost predicate LatestMinimum(samples: seq<Sample>, v: int, ts: nat) {
    exists i :: 0 <= i < |samples| && samples[i].value == v && samples[i].ts == ts
      && (forall j :: 0 <= j < |samples| ==> v <= samples[j].value)
      && (forall j :: i < j < |samples| ==> v < samples[j].value)
  }

  ghost predicate LatestMaximum(samples: seq<Sample>, v: int, ts: nat) {
    exists i :: 0 <= i < |samples| && samples[i].value == v && samples[i].ts == ts
      && (forall j :: 0 <= j < |samples| ==> samples[j].value <= v)
      && (forall j :: i < j < |samples| ==> samples[j].value < v)
  }

  /** The running state that the samples call for. */
  ghost predicate Summarises(st: Stat, samples: seq<Sample>) {
    if samples == [] then st == CLEARED
    else
      && st.paramId == samples[|samples| - 1].paramId
      && st.numSamples == |samples|
      && st.avg == Total(samples)
      && LatestMinimum(samples, st.min, st.minTs)
      && LatestMaximum(samples, st.max, st.maxTs)
      && st.fromTime == samples[0].ts
      && st.toTime == samples[|samples| - 1].ts
  }

  ghost predicate Timed(samples: seq<Sample>) {
    forall i :: 0 <= i < |samples| ==> samples[i].ts > 0
  }

  /** r is an integer nearest to x, and of two the one away from zero. */
  ghost predicate Nearest(r: int, x: real) {
    && -1.0 <= 2.0 * (r as real - x) <= 1.0
    && (2.0 * (r as real - x) == 1.0 ==> x > 0.0)
    && (2.0 * (r as real - x) == -1.0 ==> x < 0.0)
  }

  lemma RoundAwayIsNearest(x: real)
    ensures forall r: int :: Nearest(r, x) <==> r == RoundAway(x)
  {
  }

  /** The value in thousandths, whatever field it is in. */
  ghost predicate Thousandths(v: CL.Value, r: int) {
    match v
    case Int(n) => r == 1000 * n
    case Real(x) => Nearest(r, 1000.0 * x)
    case _ => r == 0
  }

  /** The statistics are those of the values fetched, in thousandths with halves away from zero, exactly
      for integers typed Uint64 and for doubles typed otherwise; all others count as zero. */
  lemma ReadingIsValueIff(p: CL.Param)
    requires !p.kind.StringKind?
    ensures (forall v :: CL.OfKind(v, p.kind) ==> Thousandths(v, Reading(p.typeName, v)))
       <==> (p.kind.IntKind? <==> p.typeName == "Uint64")
    ensures (p.kind.IntKind? <==> p.typeName != "Uint64") ==>
              forall v :: CL.OfKind(v, p.kind) ==> Reading(p.typeName, v) == 0
  {
    hide RoundAway, Nearest;
    forall v | CL.OfKind(v, p.kind) && v.Real? ensures Nearest(RoundAway(v.x * 1000.0), 1000.0 * v.x) {
      RoundAwayIsNearest(v.x * 1000.0);
    }
    NearestZero();
    var one := if p.kind.IntKind? then CL.Int(1) else CL.Real(1.0);
    assert CL.OfKind(one, p.kind) && !Thousandths(one, 0);
  }

  lemma NearestZero()
    ensures RoundAway(0.0) == 0 && !Nearest(0, 1000.0)
  {
  }

  /** No field that doubles as "no sample yet" reads so although there is a sample. */
  predicate Resumes(st: Stat) {
    st.fromTime > 0 && st.minTs > 0 && st.maxTs > 0
  }

  lemma MinimumStep(samples: seq<Sample>, st: Stat, x: Sample)
    requires samples != [] && st.minTs > 0 && LatestMinimum(samples, st.min, st.minTs)
    ensures LatestMinimum(samples + [x], Engine(st, x).min, Engine(st, x).minTs)
  {
    var i :| 0 <= i < |samples| && samples[i].value == st.min && samples[i].ts == st.minTs
      && (forall j :: 0 <= j < |samples| ==> st.min <= samples[j].value)
      && (forall j :: i < j < |samples| ==> st.min < samples[j].value);
    var all := samples + [x];
    assert all[i] == samples[i] && all[|samples|] == x;
  }

  lemma MaximumStep(samples: seq<Sample>, st: Stat, x: Sample)
    requires samples != [] && st.maxTs > 0 && LatestMaximum(samples, st.max, st.maxTs)
    ensures LatestMaximum(samples + [x], Engine(st, x).max, Engine(st, x).maxTs)
  {
    var i :| 0 <= i < |samples| && samples[i].value == st.max && samples[i].ts == st.maxTs
      && (forall j :: 0 <= j < |samples| ==> samples[j].value <= st.max)
      && (forall j :: i < j < |samples| ==> samples[j].value < st.max);
    var all := samples + [x];
    assert all[i] == samples[i] && all[|samples|] == x;
  }

  lemma TimedResumes(st: Stat, samples: seq<Sample>)
    requires Timed(samples) && Summarises(st, samples) && samples != []
    ensures Resumes(st)
  {
  }

  /** The streaming state stays the summary of everything fed. */
  lemma EngineSummarises(st: Stat, samples: seq<Sample>, x: Sample)
    requires Summarises(st, samples) && (samples != [] ==> Resumes(st))
    ensures Summarises(Engine(st, x), samples + [x])
  {
    var all := samples + [x];
    assert all[..|all| - 1] == samples;
    if samples == [] {
      assert all == [x];
      assert LatestMinimum(all, x.value, x.ts) && LatestMaximum(all, x.value, x.ts) by {
        assert all[0] == x;
      }
    } else {
      MinimumStep(samples, st, x);
      MaximumStep(samples, st, x);
    }
  }

  /** Time zero doubles as "no sample yet": behind any samples summarised so far, every next one is
      summarised too exactly when the first time and those of the extremes are positive. */
  lemma SummaryGoesOnIff(st: Stat, samples: seq<Sample>)
    requires samples != [] && Summarises(st, samples)
    ensures (forall x: Sample :: Summarises(Engine(st, x), samples + [x])) <==> Resumes(st)
  {
    hide Engine, Summarises, LatestMinimum, LatestMaximum;
    if Resumes(st) {
      forall x: Sample ensures Summarises(Engine(st, x), samples + [x]) {
        EngineSummarises(st, samples, x);
      }
    } else {
      var x := ForgottenBy(st, samples);
    }
  }

  lemma ForgottenBy(st: Stat, samples: seq<Sample>) returns (x: Sample)
    requires samples != [] && Summarises(st, samples) && !Resumes(st)
    ensures !Summarises(Engine(st, x), samples + [x])
  {
    x := Sample(1, if st.minTs == 0 then st.min + 1 else st.max - 1, samples[0].paramId);
    var all, next := samples + [x], Engine(st, x);
    assert all[0] == samples[0];
    var i :| 0 <= i < |samples| && samples[i].value == st.min && samples[i].ts == st.minTs;
    var j :| 0 <= j < |samples| && samples[j].value == st.max && samples[j].ts == st.maxTs;
    assert all[i] == samples[i] && all[j] == samples[j];
  }

  // ---------------------------------------------------------------- the mean

  lemma {:induction false} TotalBounds(samples: seq<Sample>, low: int, high: int)
    requires forall j :: 0 <= j < |samples| ==> low <= samples[j].value <= high
    ensures low * |samples| <= Total(samples) <= high * |samples|
  {
    if samples != [] {
      TotalBounds(samples[..|samples| - 1], low, high);
      assert low * |samples| == low * (|samples| - 1) + low;
      assert high * |samples| == high * (|samples| - 1) + high;
    }
  }

  /** m is an integer nearest to sum / n, and of two the one away from zero. */
  ghost predicate RoundedMean(m: int, sum: int, n: int) {
    && -n <= 2 * (n * m - sum) <= n
    && (2 * (n * m - sum) == n ==> sum > 0)
    && (2 * (n * m - sum) == -n ==> sum < 0)
  }

  lemma Sign(a: real, d: real)
    requires d > 0.0
    ensures a >= 0.0 <==> a * d >= 0.0
    ensures a <= 0.0 <==> a * d <= 0.0
  {
  }

  lemma Scaled(gap: real, d: real, t: real)
    requires d > 0.0 && gap * d == t
    ensures -1.0 <= gap <= 1.0 <==> -d <= t <= d
    ensures t == d <==> gap == 1.0
    ensures t == -d <==> gap == -1.0
    ensures gap > 0.0 <==> t > 0.0
    ensures gap < 0.0 <==> t < 0.0
  {
    assert (gap - 1.0) * d == t - d && (gap + 1.0) * d == t + d;
    Sign(gap, d);
    Sign(gap - 1.0, d);
    Sign(gap + 1.0, d);
  }

  lemma MeanIsRounded(sum: int, n: nat)
    requires n > 0
    ensures RoundedMean(Mean(sum, n), sum, n)
  {
    hide RoundAway;
    var q, d, m := sum as real / n as real, n as real, Mean(sum, n);
    RoundAwayIsNearest(q);
    assert q * d == sum as real;
    Scaled(q, d, sum as real);
    var gap, t := 2.0 * (m as real - q), 2 * (n * m - sum);
    assert gap * d == 2.0 * (m as real * d) - 2.0 * (q * d) == t as real;
    Scaled(gap, d, t as real);
    assert Nearest(m, q);
  }

  /** Multiples of n that are not below -n / 2 are not negative. */
  lemma AtLeast(k: int, n: int)
    requires n > 0 && 2 * (k * n) >= -n
    ensures k >= 0
  {
  }

  lemma RoundedMeanBetween(m: int, sum: int, n: nat, low: int, high: int)
    requires n > 0 && RoundedMean(m, sum, n) && low * n <= sum <= high * n
    ensures low <= m <= high
  {
    assert (m - low) * n == m * n - low * n && (high - m) * n == high * n - m * n;
    AtLeast(m - low, n);
    AtLeast(high - m, n);
  }

  /** A written row: the summary of its samples with the sum replaced by the rounded mean. */
  ghost predicate Reports(st: Stat, samples: seq<Sample>) {
    && samples != [] && Summarises(st.(avg := Total(samples)), samples)
    && RoundedMean(st.avg, Total(samples), |samples|)
  }

  /** The rounded mean never leaves the range of the samples. */
  lemma MeanWithinRange(st: Stat, samples: seq<Sample>)
    requires Reports(st, samples)
    ensures st.min <= st.avg <= st.max
  {
    TotalBounds(samples, st.min, st.max);
    RoundedMeanBetween(st.avg, Total(samples), |samples|, st.min, st.max);
  }

  // ---------------------------------------------------------------- over a run

  datatype Event = Fed(sample: Sample) | SubWindow | Window(newDir: string)

  function Step(st: State, e: Event): State {
    match e
    case Fed(s) => st.Feed(s)
    case SubWindow => st.Flush()
    case Window(newDir) => st.NextWindow(newDir)
  }

  function Run(st: State, events: seq<Event>): State
    decreases |events|
  {
    if events == [] then st else Step(Run(st, events[..|events| - 1]), events[|events| - 1])
  }

  /** A sample and the directory that was live when it arrived. */
  datatype Arrival = Arrival(dir: string, sample: Sample)

  function LiveDir(dir: string, events: seq<Event>): string {
    if events == [] then dir
    else
      match events[|events| - 1]
      case Window(newDir) => newDir
      case _ => LiveDir(dir, events[..|events| - 1])
  }

  /** Everything fed, in order, each with its live directory. */
  function Arrivals(dir: string, events: seq<Event>): seq<Arrival> {
    if events == [] then []
    else
      var before := events[..|events| - 1];
      match events[|events| - 1]
      case Fed(s) => Arrivals(dir, before) + [Arrival(LiveDir(dir, before), s)]
      case _ => Arrivals(dir, before)
  }

  ghost predicate TimedEvents(events: seq<Event>) {
    forall i :: 0 <= i < |events| ==> (events[i].Fed? ==> events[i].sample.ts > 0)
  }

  function Tag(dir: string, samples: seq<Sample>): seq<Arrival> {
    seq(|samples|, i requires 0 <= i < |samples| => Arrival(dir, samples[i]))
  }

  /** parts[i] are the samples behind row i, open those not flushed yet. */
  ghost predicate Explains(st: State, parts: seq<seq<Sample>>, open: seq<Sample>) {
    && |parts| == |st.rows|
    && (forall i :: 0 <= i < |parts| ==> Reports(st.rows[i].stat, parts[i]))
    && Summarises(st.running, open)
    && Timed(open)
  }

  function TagRows(rows: seq<Row>, parts: seq<seq<Sample>>): seq<Arrival>
    requires |rows| == |parts|
  {
    if parts == [] then []
    else TagRows(rows[..|rows| - 1], parts[..|parts| - 1]) + Tag(rows[|rows| - 1].dir, parts[|parts| - 1])
  }

  /** The rows partition the stream: cut into consecutive parts, one per row, plus the samples
      still open, the parts are exactly the arrivals in order, every row reports its part and
      lies in the directory that was live when each of its samples arrived. */
  lemma {:induction false} RowsPartitionStream(dir: string, events: seq<Event>)
    returns (parts: seq<seq<Sample>>, open: seq<Sample>)
    requires TimedEvents(events)
    ensures var st := Run(State(CLEARED, dir, []), events);
            && Explains(st, parts, open)
            && st.dir == LiveDir(dir, events)
            && TagRows(st.rows, parts) + Tag(st.dir, open) == Arrivals(dir, events)
    decreases |events|
  {
    hide Engine, Mean, Reports, Explains, State.Flush;
    if events == [] {
      parts, open := [], [];
      NothingToExplain(dir);
    } else {
      var before, e := events[..|events| - 1], events[|events| - 1];
      parts, open := RowsPartitionStream(dir, before);
      var st := Run(State(CLEARED, dir, []), before);
      match e
      case Fed(s) =>
        OpenGrows(st, parts, open, s);
        open := open + [s];
      case SubWindow =>
        parts, open := CloseRow(st, parts, open, st.dir);
      case Window(newDir) =>
        parts, open := CloseRow(st, parts, open, newDir);
        assert Tag(newDir, open) == Tag(st.dir, open);
    }
  }

  lemma NothingToExplain(dir: string)
    ensures Explains(State(CLEARED, dir, []), [], [])
  {
  }

  lemma OpenGrows(st: State, parts: seq<seq<Sample>>, open: seq<Sample>, s: Sample)
    requires Explains(st, parts, open) && s.ts > 0
    ensures Explains(st.Feed(s), parts, open + [s])
    ensures TagRows(st.rows, parts) + Tag(st.dir, open + [s])
         == (TagRows(st.rows, parts) + Tag(st.dir, open)) + [Arrival(st.dir, s)]
  {
    hide Engine, Reports, Summarises, Resumes, TagRows;
    if open != [] {
      TimedResumes(st.running, open);
    }
    EngineSummarises(st.running, open, s);
    assert Tag(st.dir, open + [s]) == Tag(st.dir, open) + [Arrival(st.dir, s)];
  }

  lemma CloseRow(st: State, parts: seq<seq<Sample>>, open: seq<Sample>, newDir: string)
    returns (parts': seq<seq<Sample>>, open': seq<Sample>)
    requires Explains(st, parts, open)
    ensures Explains(st.Flush(), parts', open') && st.Flush().dir == st.dir && open' == []
    ensures Explains(st.Flush().(dir := newDir), parts', open')
    ensures TagRows(st.Flush().rows, parts') + Tag(st.dir, open') == TagRows(st.rows, parts) + Tag(st.dir, open)
  {
    open' := [];
    if open == [] {
      parts' := parts;
    } else {
      parts' := parts + [open];
      var rows := st.Flush().rows;
      assert rows[..|rows| - 1] == st.rows && parts'[..|parts'| - 1] == parts;
      assert rows[|rows| - 1].stat.(avg := Total(open)) == st.running;
      MeanIsRounded(st.running.avg, st.running.numSamples);
    }
  }

  function SumCounts(rows: seq<Row>): nat {
    if rows == [] then 0 else SumCounts(rows[..|rows| - 1]) + rows[|rows| - 1].stat.numSamples
  }

  lemma {:induction false} TaggedLength(rows: seq<Row>, parts: seq<seq<Sample>>)
    requires |rows| == |parts| && forall i :: 0 <= i < |parts| ==> Reports(rows[i].stat, parts[i])
    ensures |TagRows(rows, parts)| == SumCounts(rows)
  {
    if parts != [] {
      TaggedLength(rows[..|rows| - 1], parts[..|parts| - 1]);
    }
  }

  /** Nothing is counted twice or dropped: flushed counts plus the running count are the samples fed. */
  lemma CountsConserved(dir: string, events: seq<Event>)
    requires TimedEvents(events)
    ensures var st := Run(State(CLEARED, dir, []), events);
            SumCounts(st.rows) + st.running.numSamples == |Arrivals(dir, events)|
  {
    var parts, open := RowsPartitionStream(dir, events);
    TaggedLength(Run(State(CLEARED, dir, []), events).rows, parts);
  }
}

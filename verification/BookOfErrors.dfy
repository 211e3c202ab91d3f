/** The deduplicated error log that decides which samples compaction keeps. */
module BookOfErrors {
  import opened Text
  import opened RecordFile

  datatype ErrorRec = ErrorRec(bootId: string, device: string, paramId: nat, errorType: string, time: nat)

  type ErrorFile = Option<RecFile<ErrorRec>>

  predicate SameKey(a: ErrorRec, b: ErrorRec) {
    a.bootId == b.bootId && a.device == b.device && a.paramId == b.paramId && a.errorType == b.errorType
  }

  predicate HasKey(records: seq<ErrorRec>, e: ErrorRec) {
    exists i :: 0 <= i < |records| && SameKey(records[i], e)
  }

  /** The file after one reported error. */
  function Report(file: ErrorFile, e: ErrorRec): ErrorFile {
    if HasKey(Records(file), e) then file else Append(AfterFullRead(file), e)
  }

  class ErrorBook {
    var file: ErrorFile

    constructor (file: ErrorFile)
      ensures this.file == file
    {
      this.file := file;
    }

    /** The scan stops at the first match; reaching unreadable bytes deletes the file. */
    method CompareMessageWithLog(e: ErrorRec) returns (found: bool)
      modifies this
      ensures found <==> HasKey(Records(old(file)), e)
      ensures file == if found then old(file) else AfterFullRead(old(file))
    {
      if file.None? {
        return false;
      }
      var pos := 0;
      var read := ReadNext(file, pos);
      while read.Record?
        invariant file == old(file) && read == ReadNext(file, pos)
        invariant pos <= |Records(file)| && !HasKey(Records(file)[..pos], e)
        decreases |Records(file)| - pos
      {
        if SameKey(e, read.r) {
          return true;
        }
        assert Records(file)[..pos + 1] == Records(file)[..pos] + [read.r];
        pos := pos + 1;
        read := ReadNext(file, pos);
      }
      assert Records(file)[..pos] == Records(file);
      if read.Corrupt? {
        file := None;
      }
      return false;
    }

    method SetBookOfErrorsRecord(bootId: string, paramId: nat, device: string, errorType: string, now: nat)
      modifies this
      ensures file == Report(old(file), ErrorRec(bootId, device, paramId, errorType, now))
    {
      var e := ErrorRec(bootId, device, paramId, errorType, now);
      var found := CompareMessageWithLog(e);
      if !found {
        file := Append(file, e);
      }
    }
  }

  // ---------------------------------------------------------------- over a stream of reports

  function ReportAll(file: ErrorFile, stream: seq<ErrorRec>): ErrorFile {
    if stream == [] then file else Report(ReportAll(file, stream[..|stream| - 1]), stream[|stream| - 1])
  }

  /** The reports that no earlier report of the stream shares a key with, in order. */
  function FirstOccurrences(stream: seq<ErrorRec>): seq<ErrorRec> {
    if stream == [] then []
    else
      var n := |stream| - 1;
      if HasKey(stream[..n], stream[n]) then FirstOccurrences(stream[..n])
      else FirstOccurrences(stream[..n]) + [stream[n]]
  }

  ghost predicate DistinctKeys(records: seq<ErrorRec>) {
    forall i, j :: 0 <= i < j < |records| ==> !SameKey(records[i], records[j])
  }

  lemma {:induction false} SameKeysKept(stream: seq<ErrorRec>, e: ErrorRec)
    ensures HasKey(FirstOccurrences(stream), e) <==> HasKey(stream, e)
  {
    if stream != [] {
      var n := |stream| - 1;
      var kept := FirstOccurrences(stream[..n]);
      SameKeysKept(stream[..n], e);
      SameKeysKept(stream[..n], stream[n]);
      assert HasKey(stream, e) <==> HasKey(stream[..n], e) || SameKey(stream[n], e) by {
        if HasKey(stream, e) {
          var i :| 0 <= i < |stream| && SameKey(stream[i], e);
          if i < n { assert stream[..n][i] == stream[i]; }
        }
        if HasKey(stream[..n], e) {
          var i :| 0 <= i < n && SameKey(stream[..n][i], e);
          assert stream[i] == stream[..n][i];
        }
      }
      HasKeyOfAppend(kept, stream[n], e);
      if HasKey(stream[..n], stream[n]) && SameKey(stream[n], e) {
        var i :| 0 <= i < n && SameKey(stream[..n][i], stream[n]);
        assert SameKey(stream[..n][i], e);
      }
    }
  }

  lemma HasKeyOfAppend(records: seq<ErrorRec>, last: ErrorRec, e: ErrorRec)
    ensures HasKey(records + [last], e) <==> HasKey(records, e) || SameKey(last, e)
  {
    if HasKey(records, e) {
      var i :| 0 <= i < |records| && SameKey(records[i], e);
      assert (records + [last])[i] == records[i];
    }
    if SameKey(last, e) {
      assert (records + [last])[|records|] == last;
    }
  }

  lemma {:induction false} KeysStayDistinct(stream: seq<ErrorRec>)
    ensures DistinctKeys(FirstOccurrences(stream))
  {
    if stream != [] {
      var n := |stream| - 1;
      KeysStayDistinct(stream[..n]);
      SameKeysKept(stream[..n], stream[n]);
    }
  }

  /** The log is the first occurrences of everything reported, so its keys are pairwise distinct. */
  lemma {:induction false} LogIsFirstOccurrences(stream: seq<ErrorRec>)
    ensures Records(ReportAll(None, stream)) == FirstOccurrences(stream)
    ensures !IsTorn(ReportAll(None, stream))
    ensures DistinctKeys(Records(ReportAll(None, stream)))
  {
    KeysStayDistinct(stream);
    if stream != [] {
      var n := |stream| - 1;
      LogIsFirstOccurrences(stream[..n]);
      SameKeysKept(stream[..n], stream[n]);
    }
  }

  /** What errors are told apart by. */
  function Key(e: ErrorRec): (string, string, nat, string) {
    (e.bootId, e.device, e.paramId, e.errorType)
  }

  lemma HasKeyIff(records: seq<ErrorRec>, e: ErrorRec)
    ensures HasKey(records, e) <==> exists r :: r in records && Key(r) == Key(e)
  {
    if HasKey(records, e) {
      var i :| 0 <= i < |records| && SameKey(records[i], e);
      assert records[i] in records;
    }
  }

  lemma DistinctKeysIff(records: seq<ErrorRec>)
    ensures DistinctKeys(records) <==> forall i, j :: 0 <= i < j < |records| ==> Key(records[i]) != Key(records[j])
  {
  }

  lemma {:induction false} FirstOccurrencesReported(stream: seq<ErrorRec>, e: ErrorRec)
    requires e in FirstOccurrences(stream)
    ensures e in stream
  {
    var n := |stream| - 1;
    if e in FirstOccurrences(stream[..n]) {
      FirstOccurrencesReported(stream[..n], e);
    }
  }

  /** Nothing but reports is logged, no boot, device, parameter and type of error twice, and all that
      were reported. */
  lemma LogTellsKeys(stream: seq<ErrorRec>)
    ensures var log := Records(ReportAll(None, stream));
            && (forall r :: r in log ==> r in stream)
            && (forall i, j :: 0 <= i < j < |log| ==> Key(log[i]) != Key(log[j]))
            && (forall e :: e in stream ==> exists r :: r in log && Key(r) == Key(e))
  {
    hide HasKey, FirstOccurrences, ReportAll, Key, SameKey, DistinctKeys;
    LogIsFirstOccurrences(stream);
    DistinctKeysIff(Records(ReportAll(None, stream)));
    var log := Records(ReportAll(None, stream));
    forall r | r in log ensures r in stream {
      FirstOccurrencesReported(stream, r);
    }
    forall e | e in stream ensures exists r :: r in log && Key(r) == Key(e) {
      SameKeysKept(stream, e);
      HasKeyIff(stream, e);
      HasKeyIff(log, e);
    }
  }

  /** A log with unreadable bytes is moved away and begun anew with the error reported, unless that is
      among what can still be read. */
  lemma TornLogStartsOver(records: seq<ErrorRec>, e: ErrorRec)
    ensures var file := Some(RecFile(records, true));
            Report(file, e) == if exists r :: r in records && Key(r) == Key(e) then file
                               else Some(RecFile([e], false))
  {
    HasKeyIff(records, e);
  }
}

/** A record file as FDRStore sees it: the records that can be read from the front and whether
    unreadable bytes follow them. Each append, delete and copy is one step. */
module RecordFile {
  import opened Text

  datatype RecFile<T> = RecFile(records: seq<T>, torn: bool)

  datatype Read<T> = Record(r: T) | EndOfFile | Corrupt

  /** readnext() with the stream at record pos; a missing file reads as an empty one. */
  function ReadNext<T>(file: Option<RecFile<T>>, pos: nat): Read<T> {
    if file.None? then EndOfFile
    else if pos < |file.value.records| then Record(file.value.records[pos])
    else if file.value.torn then Corrupt
    else EndOfFile
  }

  /** append(): creates the file when missing; what follows unreadable bytes stays unreadable. */
  function Append<T>(file: Option<RecFile<T>>, r: T): Option<RecFile<T>> {
    if file.None? then Some(RecFile([r], false))
    else if file.value.torn then file
    else Some(RecFile(file.value.records + [r], false))
  }

  /** What reading to the end leaves: a corrupt file is moved away and deleted. */
  function AfterFullRead<T>(file: Option<RecFile<T>>): Option<RecFile<T>> {
    if file.Some? && file.value.torn then None else file
  }

  function Records<T>(file: Option<RecFile<T>>): seq<T> {
    if file.Some? then file.value.records else []
  }

  predicate IsTorn<T>(file: Option<RecFile<T>>) {
    file.Some? && file.value.torn
  }
}

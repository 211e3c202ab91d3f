/** Names of dump files: how a path is printed and how the timestamp is read back from it. */
module DumpPaths {
  import opened Text

  /** {Section}.{ComponentID}.{FilePrefix}_ : what the files of one profile and component start with. */
  function NamePrefix(section: string, component: string, filePrefix: string): string {
    section + "." + component + "." + filePrefix + "_"
  }

  function FileName(section: string, component: string, filePrefix: string, timestamp: int): string {
    NamePrefix(section, component, filePrefix) + IntToString(timestamp) + ".dat"
  }

  function PathIn(base: string, dir: string, name: string): string {
    base + "/" + dir + "/" + name
  }

  /** The directory iterator joins with a slash only where the base path does not end in one. */
  function ListedPath(base: string, dir: string, name: string): string {
    if base != "" && base[|base| - 1] == '/' then base + dir + "/" + name else PathIn(base, dir, name)
  }

  // ---------------------------------------------------------------- the file a path names

  /** A path in plain form. Slashes in a row count as one, so paths with one plain form name one file. */
  function Plain(path: string): string {
    if path == "" then ""
    else
      var n := |path| - 1;
      if n > 0 && path[n] == '/' && path[n - 1] == '/' then Plain(path[..n]) else Plain(path[..n]) + [path[n]]
  }

  /** The file of that name in a window directory. */
  function FileIn(base: string, dir: string, name: string): string {
    Plain(PathIn(base, dir, name))
  }

  /** One component of a path. */
  predicate IsName(s: string) {
    s != "" && '/' !in s
  }

  lemma {:induction false} PlainConcat(head: string, tail: string)
    requires head == "" || tail == "" || head[|head| - 1] != '/' || tail[0] != '/'
    ensures Plain(head + tail) == Plain(head) + Plain(tail)
    decreases |tail|
  {
    if tail == "" {
      assert head + tail == head && Plain(head) + "" == Plain(head);
    } else {
      var n := |tail| - 1;
      assert (head + tail)[..|head + tail| - 1] == head + tail[..n];
      PlainConcat(head, tail[..n]);
      assert Plain(head) + (Plain(tail[..n]) + [tail[n]]) == Plain(head) + Plain(tail[..n]) + [tail[n]];
    }
  }

  lemma {:induction false} PlainName(s: string)
    requires '/' !in s
    ensures Plain(s) == s
  {
    if s != "" {
      PlainName(s[..|s| - 1]);
      assert s[|s| - 1] in s;
    }
  }

  /** What follows the last slash is as it was. */
  lemma PlainTail(head: string, tail: string)
    requires '/' !in tail
    ensures Plain(head + tail) == Plain(head) + tail
  {
    PlainName(tail);
    assert tail != "" ==> tail[0] in tail;
    PlainConcat(head, tail);
  }

  lemma FileInParts(base: string, dir: string, name: string)
    requires IsName(dir)
    ensures FileIn(base, dir, name) == Plain(base + "/") + dir + Plain("/" + name)
  {
    PlainTail(base + "/", dir);
    PlainConcat(base + "/" + dir, "/" + name);
    assert PathIn(base, dir, name) == (base + "/" + dir) + ("/" + name);
  }

  /** The file a window directory holds under a name tells both. */
  lemma FileDecides(base: string, dir: string, name: string, dir': string, name': string)
    requires IsName(dir) && IsName(dir') && IsName(name) && IsName(name')
    requires FileIn(base, dir, name) == FileIn(base, dir', name')
    ensures dir == dir' && name == name'
  {
    hide Plain, FileIn;
    FileInParts(base, dir, name);
    FileInParts(base, dir', name');
    PlainTail("/", name);
    PlainTail("/", name');
    var root, slash := Plain(base + "/"), Plain("/");
    assert slash == "/" by { OneSlash(); }
    var path := FileIn(base, dir, name);
    assert path == root + (dir + "/" + name) && path == root + (dir' + "/" + name');
    assert dir + "/" + name == path[|root|..] == dir' + "/" + name';
    NameDecides(dir, name, dir', name');
  }

  lemma OneSlash()
    ensures Plain("/") == "/"
  {
    assert Plain("") == "";
  }

  lemma NameDecides(dir: string, name: string, dir': string, name': string)
    requires '/' !in name && '/' !in name' && dir + "/" + name == dir' + "/" + name'
    ensures dir == dir' && name == name'
  {
    FilenameOfTail(dir + "/", name);
    FilenameOfTail(dir' + "/", name');
    assert Filename(dir + "/") + name == name && Filename(dir' + "/") + name' == name';
    SameFront(dir, dir', name);
  }

  lemma SameFront(a: string, b: string, name: string)
    requires a + "/" + name == b + "/" + name
    ensures a == b
  {
    assert (a + "/" + name)[..|a|] == a && (b + "/" + name)[..|b|] == b;
  }

  lemma {:induction false} OneSlashMore(head: string, tail: string)
    ensures Plain(head + "//" + tail) == Plain(head + "/" + tail)
    decreases |tail|
  {
    var two, one := head + "//" + tail, head + "/" + tail;
    if tail == "" {
      assert two[..|two| - 1] == one;
    } else {
      var n := |tail| - 1;
      assert two[..|two| - 1] == head + "//" + tail[..n] && one[..|one| - 1] == head + "/" + tail[..n];
      OneSlashMore(head, tail[..n]);
    }
  }

  /** The scan lists the file a dump was stored in, whether the base path ends in a slash or not;
      it spells the path as the store did exactly where it does not. */
  lemma ListedIsStored(base: string, dir: string, name: string)
    ensures Plain(ListedPath(base, dir, name)) == FileIn(base, dir, name)
    ensures ListedPath(base, dir, name) == PathIn(base, dir, name) <==> base == "" || base[|base| - 1] != '/'
  {
    if base != "" && base[|base| - 1] == '/' {
      var head, tail := base[..|base| - 1], dir + "/" + name;
      assert base == head + "/";
      assert ListedPath(base, dir, name) == head + "/" + tail;
      assert PathIn(base, dir, name) == head + "//" + tail;
      OneSlashMore(head, tail);
      assert |PathIn(base, dir, name)| == |ListedPath(base, dir, name)| + 1;
    }
  }

  // ---------------------------------------------------------------- searching

  /** fs::path::filename(): what follows the last slash. */
  function Filename(path: string): string {
    if path == "" || path[|path| - 1] == '/' then ""
    else Filename(path[..|path| - 1]) + [path[|path| - 1]]
  }

  /** The last occurrence of pattern that starts at or before position i. */
  function RFind(s: string, pattern: string, i: nat): (r: Option<nat>)
    requires i + |pattern| <= |s|
    ensures r.Some? ==> r.value <= i && s[r.value..r.value + |pattern|] == pattern
  {
    if s[i..i + |pattern|] == pattern then Some(i)
    else if i == 0 then None
    else RFind(s, pattern, i - 1)
  }

  function RFindChar(s: string, c: char, i: nat): (r: Option<nat>)
    requires i < |s|
    ensures r.Some? ==> r.value <= i && s[r.value] == c
  {
    if s[i] == c then Some(i) else if i == 0 then None else RFindChar(s, c, i - 1)
  }

  lemma FileEndsLikeName(base: string, dir: string, name: string)
    requires EndsWith(name, ".dat")
    ensures EndsWith(FileIn(base, dir, name), ".dat") && !EndsWith(FileIn(base, dir, name), ".tmp")
  {
    hide Plain;
    var path := PathIn(base, dir, name);
    assert path[|path| - 4..] == name[|name| - 4..];
    assert path == path[..|path| - 4] + ".dat";
    PlainTail(path[..|path| - 4], ".dat");
    var file := Plain(path);
    assert file[|file| - 4..] == ".dat";
    assert ".dat"[3] == 't' && ".tmp"[3] == 'p';
  }

  /** extractTimestamp(): zero whenever any step fails. */
  function ExtractTimestamp(path: string): int {
    var name := Filename(path);
    if |name| < 4 then 0
    else
      var dot := RFind(name, ".dat", |name| - 4);
      if dot.None? then 0
      else
        var underscore := RFindChar(name, '_', dot.value);
        if underscore.None? || underscore.value + 1 >= dot.value then 0
        else
          var t := Stoll(name[underscore.value + 1..dot.value]);
          if t.Some? then t.value else 0
  }

  // ---------------------------------------------------------------- round trip

  lemma {:induction false} FilenameOfTail(head: string, tail: string)
    requires '/' !in tail
    ensures Filename(head + tail) == Filename(head) + tail
  {
    if tail == "" {
      assert head + tail == head;
      assert Filename(head) + "" == Filename(head);
    } else {
      var n := |tail| - 1;
      assert tail[n] in tail && tail[n] != '/';
      assert (head + tail)[..|head + tail| - 1] == head + tail[..n];
      FilenameOfTail(head, tail[..n]);
      assert Filename(head) + tail[..n] + [tail[n]] == Filename(head) + tail;
    }
  }

  /** The digits behind the underscore hold no other underscore. */
  lemma {:induction false} UnderscoreScan(head: string, digits: string, rest: string, k: nat)
    requires '_' !in digits && k <= |digits|
    ensures RFindChar(head + "_" + digits + rest, '_', |head| + k) == Some(|head|)
  {
    var s := head + "_" + digits + rest;
    if k > 0 {
      assert s[|head| + k] == digits[k - 1] && digits[k - 1] in digits;
      UnderscoreScan(head, digits, rest, k - 1);
    }
  }

  lemma PrintedTime(t: int)
    ensures '_' !in IntToString(t) && '/' !in IntToString(t) && IntToString(t) != ""
  {
    NatTextRoundTrip(if t < 0 then -t else t);
  }

  lemma TimestampOfName(head: string, digits: string)
    requires '_' !in digits && '/' !in digits && digits != ""
    ensures var name := head + "_" + digits + ".dat";
            && RFind(name, ".dat", |name| - 4) == Some(|head| + 1 + |digits|)
            && name[|head| + 1..|head| + 1 + |digits|] == digits
  {
    var name := head + "_" + digits + ".dat";
    assert name[|name| - 4..|name| - 4 + 4] == ".dat";
  }

  /** Reading the timestamp of a printed name gives the time back, whatever the profile, the
      component and the directory are called and however the path is spelled. */
  lemma ExtractOfPrinted(head: string, section: string, component: string, filePrefix: string, t: int)
    requires INT64_MIN <= t <= INT64_MAX
    ensures ExtractTimestamp(head + FileName(section, component, filePrefix, t)) == t
  {
    hide IntToString, Stoll, RFind, RFindChar, Filename;
    var digits := IntToString(t);
    PrintedTime(t);
    StollOfPrinted(t);
    var before := head + section + "." + component + "." + filePrefix;
    var tail := "_" + digits + ".dat";
    var path := head + FileName(section, component, filePrefix, t);
    assert path == before + tail;
    FilenameOfTail(before, tail);
    var front := Filename(before);
    var name := front + "_" + digits + ".dat";
    assert Filename(path) == name;
    TimestampOfName(front, digits);
    assert name[|front| + 1 + |digits|] == '.';
    UnderscoreScan(front, digits, ".dat", |digits|);
    RFindSkips(name, '_', |front| + 1 + |digits|);
  }

  lemma ExtractOfListed(base: string, dir: string, section: string, component: string, filePrefix: string, t: int)
    requires INT64_MIN <= t <= INT64_MAX
    ensures ExtractTimestamp(ListedPath(base, dir, FileName(section, component, filePrefix, t))) == t
  {
    hide FileName, ExtractTimestamp;
    var head := if base != "" && base[|base| - 1] == '/' then base + dir + "/" else base + "/" + dir + "/";
    ExtractOfPrinted(head, section, component, filePrefix, t);
    var name := FileName(section, component, filePrefix, t);
    assert ListedPath(base, dir, name) == head + name;
  }

  lemma RFindSkips(s: string, c: char, i: nat)
    requires 0 < i < |s| && s[i] != c
    ensures RFindChar(s, c, i) == RFindChar(s, c, i - 1)
  {
  }

  // ---------------------------------------------------------------- any name

  lemma StandsIff(s: string, pattern: string, i: nat)
    requires i + |pattern| <= |s|
    ensures StandsAt(s, pattern, i) <==> s[i..i + |pattern|] == pattern
  {
    assert StandsAt(s, pattern, i) ==> forall k :: 0 <= k < |pattern| ==> s[i..i + |pattern|][k] == pattern[k];
    if s[i..i + |pattern|] == pattern {
      forall k | 0 <= k < |pattern| ensures s[i + k] == pattern[k] {
        assert s[i..i + |pattern|][k] == s[i + k];
      }
    }
  }

  lemma {:induction false} RFindIsLast(s: string, pattern: string, i: nat)
    requires i + |pattern| <= |s|
    ensures var r := RFind(s, pattern, i);
            && (r.None? ==> forall k :: 0 <= k <= i ==> !StandsAt(s, pattern, k))
            && (r.Some? ==> r.value <= i && StandsAt(s, pattern, r.value)
                            && forall k :: r.value < k <= i ==> !StandsAt(s, pattern, k))
  {
    hide StandsAt;
    StandsIff(s, pattern, i);
    if i > 0 && s[i..i + |pattern|] != pattern {
      RFindIsLast(s, pattern, i - 1);
    }
  }

  lemma {:induction false} RFindCharIsLast(s: string, c: char, i: nat)
    requires i < |s|
    ensures var r := RFindChar(s, c, i);
            && (r.None? ==> forall k :: 0 <= k <= i ==> s[k] != c)
            && (r.Some? ==> r.value <= i && s[r.value] == c && forall k :: r.value < k <= i ==> s[k] != c)
  {
    if s[i] != c && i > 0 {
      RFindCharIsLast(s, c, i - 1);
    }
  }

  /** name is front_text.dat and whatever follows the last .dat; text is what stands behind the last
      underscore before it. */
  ghost predicate StampedName(name: string, front: string, text: string, rest: string) {
    && name == front + "_" + text + ".dat" + rest && '_' !in text
    && forall k :: |name| - |rest| - 4 < k <= |name| ==> !StandsAt(name, ".dat", k)
  }

  /** The time of any file, however it is called: the number between the last underscore and the last
      .dat of its name, read as std::stoll reads it, and zero where there is none. */
  lemma ExtractDecides(head: string, name: string, front: string, text: string, rest: string, blanks: string,
                       sign: string, digits: string, more: string)
    requires '/' !in name && (head == "" || head[|head| - 1] == '/')
    requires StampedName(name, front, text, rest) && NumberText(text, blanks, sign, digits, more)
    ensures var n := DigitsValue(digits); var v: int := if sign == "-" then 0 - n else n;
            ExtractTimestamp(head + name) == if digits != "" && INT64_MIN <= v <= INT64_MAX then v else 0
  {
    hide Stoll, RFind, RFindChar, Filename, StampedName, NumberText, DigitsValue;
    FilenameOfTail(head, name);
    FilenameOfFolder(head);
    assert Filename(head) + name == name;
    DotFound(name, front, text, rest);
    UnderscoreFound(name, front, text, rest);
    StampText(name, front, text, rest);
    ParsersRead(text, blanks, sign, digits, more);
    if text == "" {
      TextOfNothing(text, blanks, sign, digits, more);
    }
  }

  lemma TextOfNothing(text: string, blanks: string, sign: string, digits: string, more: string)
    requires NumberText(text, blanks, sign, digits, more) && text == ""
    ensures digits == ""
  {
  }

  lemma LastStands(s: string, pattern: string, d: nat, i: nat)
    requires d <= i && i + |pattern| <= |s|
    requires StandsAt(s, pattern, d) && forall k :: d < k <= i ==> !StandsAt(s, pattern, k)
    ensures RFind(s, pattern, i) == Some(d)
  {
    hide RFind, StandsAt;
    RFindIsLast(s, pattern, i);
  }

  lemma NoDotBehind(name: string, front: string, text: string, rest: string)
    requires StampedName(name, front, text, rest)
    ensures |name| == |front| + 1 + |text| + 4 + |rest|
    ensures forall k :: |front| + 1 + |text| < k <= |name| ==> !StandsAt(name, ".dat", k)
  {
    hide StandsAt;
  }

  lemma DotFound(name: string, front: string, text: string, rest: string)
    requires StampedName(name, front, text, rest)
    ensures |name| >= 4 && RFind(name, ".dat", |name| - 4) == Some(|front| + 1 + |text|)
  {
    hide *;
    NoDotBehind(name, front, text, rest);
    DotStands(name, front, text, rest);
    LastStands(name, ".dat", |front| + 1 + |text|, |name| - 4);
  }

  lemma NoUnderscoreBehind(front: string, text: string, tail: string, k: nat)
    requires '_' !in text && tail != "" && tail[0] == '.' && |front| <= k <= |front| + |text|
    ensures (front + text + tail)[k] != '_'
  {
    if k < |front| + |text| {
      assert (front + text + tail)[k] == text[k - |front|];
    }
  }

  lemma NameParts(name: string, front: string, text: string, rest: string)
    requires StampedName(name, front, text, rest)
    ensures name == (front + "_") + text + (".dat" + rest)
  {
    hide StandsAt;
  }

  lemma LastIs(s: string, c: char, u: nat, d: nat)
    requires u <= d < |s| && s[u] == c && forall k :: u < k <= d ==> s[k] != c
    ensures RFindChar(s, c, d) == Some(u)
  {
    hide RFindChar;
    RFindCharIsLast(s, c, d);
  }

  lemma NoneBehind(name: string, front: string, text: string, rest: string)
    requires StampedName(name, front, text, rest)
    ensures |front| + 1 + |text| < |name| && name[|front|] == '_'
    ensures forall k :: |front| < k <= |front| + 1 + |text| ==> name[k] != '_'
  {
    hide StampedName;
    NameParts(name, front, text, rest);
    TextHasNone(name, front, text, rest);
    forall k | |front| < k <= |front| + 1 + |text| ensures name[k] != '_' {
      NoUnderscoreBehind(front + "_", text, ".dat" + rest, k);
    }
  }

  lemma UnderscoreFound(name: string, front: string, text: string, rest: string)
    requires StampedName(name, front, text, rest)
    ensures |front| + 1 + |text| < |name| && RFindChar(name, '_', |front| + 1 + |text|) == Some(|front|)
  {
    hide *;
    NoneBehind(name, front, text, rest);
    LastIs(name, '_', |front|, |front| + 1 + |text|);
  }

  lemma TextHasNone(name: string, front: string, text: string, rest: string)
    requires StampedName(name, front, text, rest)
    ensures '_' !in text
  {
  }

  lemma StampText(name: string, front: string, text: string, rest: string)
    requires StampedName(name, front, text, rest)
    ensures name[|front| + 1..|front| + 1 + |text|] == text
  {
  }

  lemma DotStands(name: string, front: string, text: string, rest: string)
    requires StampedName(name, front, text, rest)
    ensures StandsAt(name, ".dat", |front| + 1 + |text|)
  {
    hide StandsAt;
    var d := |front| + 1 + |text|;
    assert name[d..d + 4] == ".dat";
    StandsIff(name, ".dat", d);
  }

  lemma FilenameOfFolder(head: string)
    requires head == "" || head[|head| - 1] == '/'
    ensures Filename(head) == ""
  {
  }

  /** A name without .dat, or without an underscore before the last one, has time zero. */
  lemma ExtractOfOddName(head: string, name: string)
    requires '/' !in name && (head == "" || head[|head| - 1] == '/')
    requires '_' !in name || !Occurs(name, ".dat")
    ensures ExtractTimestamp(head + name) == 0
  {
    hide Stoll, RFind, RFindChar, Filename, StandsAt;
    FilenameOfTail(head, name);
    FilenameOfFolder(head);
    assert Filename(head) + name == name;
    if |name| >= 4 {
      RFindIsLast(name, ".dat", |name| - 4);
      var dot := RFind(name, ".dat", |name| - 4);
      if dot.Some? {
        RFindCharIsLast(name, '_', dot.value);
      }
    }
  }
}

/** Character-level helpers of the recorder: splitting, decimal numbers, C++ integer
    parsing and the names of the time-window directories. */
module Text {

  datatype Option<+T> = None | Some(value: T)

  const INT64_MAX: int := 0x7FFF_FFFF_FFFF_FFFF
  const INT64_MIN: int := -0x8000_0000_0000_0000
  const UINT64_MODULUS: int := 0x1_0000_0000_0000_0000

  ghost predicate Unrepeated<T>(s: seq<T>) {
    forall i, j :: 0 <= i < j < |s| ==> s[i] != s[j]
  }

  // ---------------------------------------------------------------- decimal numbers

  predicate IsDigit(c: char) {
    '0' <= c <= '9'
  }

  predicate AllDigits(s: string) {
    forall i :: 0 <= i < |s| ==> IsDigit(s[i])
  }

  function DigitChar(d: nat): (c: char)
    requires d < 10
  {
    ('0' as int + d) as char
  }

  /** The decimal text of a natural number, as std::to_string and operator<< print it. */
  function NatToString(n: nat): string {
    if n < 10 then [DigitChar(n)] else NatToString(n / 10) + [DigitChar(n % 10)]
  }

  function IntToString(t: int): string {
    if t < 0 then "-" + NatToString(-t) else NatToString(t)
  }

  /** The number a string of decimal digits denotes. */
  function DigitsValue(s: string): nat
    requires AllDigits(s)
  {
    if s == "" then 0
    else DigitsValue(s[..|s| - 1]) * 10 + (s[|s| - 1] as int - '0' as int)
  }

  lemma {:induction false} NatTextRoundTrip(n: nat)
    ensures AllDigits(NatToString(n)) && NatToString(n) != ""
    ensures DigitsValue(NatToString(n)) == n
  {
    if n >= 10 {
      NatTextRoundTrip(n / 10);
      var s := NatToString(n);
      assert s[..|s| - 1] == NatToString(n / 10);
    }
  }

  /** Two directories stamped at different seconds never get the same stamp text. */
  lemma NatTextInjective(a: nat, b: nat)
    requires NatToString(a) == NatToString(b)
    ensures a == b
  {
    NatTextRoundTrip(a);
    NatTextRoundTrip(b);
  }

  // ---------------------------------------------------------------- C++ integer parsing

  predicate IsSpace(c: char) {
    c in {' ', '\t', '\n', '\U{000B}', '\U{000C}', '\r'}
  }

  function DropSpaces(s: string): string {
    if s != "" && IsSpace(s[0]) then DropSpaces(s[1..]) else s
  }

  function DigitPrefix(s: string): (p: string)
    ensures AllDigits(p)
  {
    if s != "" && IsDigit(s[0]) then [s[0]] + DigitPrefix(s[1..]) else ""
  }

  lemma {:induction false} DigitPrefixOfDigits(s: string)
    requires AllDigits(s)
    ensures DigitPrefix(s) == s
  {
    if s != "" {
      DigitPrefixOfDigits(s[1..]);
    }
  }

  /** What strtoull and stoll see: an optional sign, the longest run of digits, the rest. */
  datatype Scan = Scan(negative: bool, digits: string, rest: string)

  function ScanInteger(s: string): (r: Scan)
    ensures AllDigits(r.digits)
  {
    var t := DropSpaces(s);
    var signed := t != "" && t[0] in {'+', '-'};
    var body := if signed then t[1..] else t;
    var digits := DigitPrefix(body);
    DigitPrefixLength(body);
    Scan(signed && t[0] == '-', digits, body[|digits|..])
  }

  lemma {:induction false} DigitPrefixLength(s: string)
    ensures |DigitPrefix(s)| <= |s|
  {
    if s != "" && IsDigit(s[0]) {
      DigitPrefixLength(s[1..]);
    }
  }

  /** std::stoll: no digits and out-of-range both throw, here None. */
  function Stoll(s: string): Option<int> {
    var sc := ScanInteger(s);
    if sc.digits == "" then None
    else
      var v: int := if sc.negative then 0 - DigitsValue(sc.digits) else DigitsValue(sc.digits);
      if INT64_MIN <= v <= INT64_MAX then Some(v) else None
  }

  /** std::stoull: a leading minus wraps modulo 2^64, overflow throws. */
  function Stoull(s: string): Option<nat> {
    var sc := ScanInteger(s);
    if sc.digits == "" || DigitsValue(sc.digits) >= UINT64_MODULUS then None
    else if sc.negative then Some((UINT64_MODULUS - DigitsValue(sc.digits)) % UINT64_MODULUS)
    else Some(DigitsValue(sc.digits))
  }

  /** strtoull: the value and whether the end pointer stands on the terminator. */
  function Strtoull(s: string): (nat, bool) {
    var sc := ScanInteger(s);
    if sc.digits == "" then (0, s == "")
    else if DigitsValue(sc.digits) >= UINT64_MODULUS then (UINT64_MODULUS - 1, sc.rest == "")
    else if sc.negative then ((UINT64_MODULUS - DigitsValue(sc.digits)) % UINT64_MODULUS, sc.rest == "")
    else (DigitsValue(sc.digits), sc.rest == "")
  }

  lemma ScanOfDigits(s: string)
    requires AllDigits(s) && s != ""
    ensures ScanInteger(s) == Scan(false, s, "")
  {
    assert IsDigit(s[0]);
    DigitPrefixOfDigits(s);
  }

  lemma ScanOfNegative(d: string)
    requires AllDigits(d) && d != ""
    ensures ScanInteger("-" + d) == Scan(true, d, "")
  {
    var s := "-" + d;
    assert s[0] == '-' && s[1..] == d;
    DigitPrefixOfDigits(d);
  }

  /** Blank, tab, line feed, vertical tab, form feed and carriage return. */
  ghost predicate Blank(c: char) {
    c == ' ' || 9 <= c as int <= 13
  }

  /** What a C++ number parser reads of: blanks, a sign or none, digits, and no digit behind them. */
  ghost predicate NumberText(s: string, blanks: string, sign: string, digits: string, rest: string) {
    && s == blanks + sign + digits + rest
    && (forall i :: 0 <= i < |blanks| ==> Blank(blanks[i])) && sign in {"", "+", "-"} && AllDigits(digits)
    && (rest != "" ==> !IsDigit(rest[0]))
    && (sign == "" && digits == "" && rest != "" ==> !Blank(rest[0]) && rest[0] !in {'+', '-'})
  }

  lemma {:induction false} DropsBlanks(blanks: string, tail: string)
    requires (forall i :: 0 <= i < |blanks| ==> Blank(blanks[i])) && (tail != "" ==> !Blank(tail[0]))
    ensures DropSpaces(blanks + tail) == tail
  {
    if blanks == "" {
      assert blanks + tail == tail;
    } else {
      assert Blank(blanks[0]);
      DropsBlanks(blanks[1..], tail);
      assert (blanks + tail)[1..] == blanks[1..] + tail;
    }
  }

  lemma {:induction false} PrefixOfDigits(digits: string, rest: string)
    requires AllDigits(digits) && (rest != "" ==> !IsDigit(rest[0]))
    ensures DigitPrefix(digits + rest) == digits
  {
    if digits == "" {
      assert digits + rest == rest;
    } else {
      PrefixOfDigits(digits[1..], rest);
      assert (digits + rest)[1..] == digits[1..] + rest;
    }
  }

  lemma ScanOfText(s: string, blanks: string, sign: string, digits: string, rest: string)
    requires NumberText(s, blanks, sign, digits, rest)
    ensures ScanInteger(s) == Scan(sign == "-", digits, rest)
  {
    var tail := sign + (digits + rest);
    assert s == blanks + tail;
    assert tail != "" ==> tail[0] == if sign != "" then sign[0] else if digits != "" then digits[0] else rest[0];
    DropsBlanks(blanks, tail);
    PrefixOfDigits(digits, rest);
    assert sign != "" ==> tail[1..] == digits + rest;
    assert sign == "" ==> tail == digits + rest;
    assert (digits + rest)[|digits|..] == rest;
  }

  /** The three parsers: no digits and a number out of range throw in two of them and give zero and the
      largest number in the third; an unsigned number behind a minus wraps. */
  lemma ParsersRead(s: string, blanks: string, sign: string, digits: string, rest: string)
    requires NumberText(s, blanks, sign, digits, rest)
    ensures var n, two64 := DigitsValue(digits), 0x1_0000_0000_0000_0000;
            var v: int := if sign == "-" then 0 - n else n;
            && (Stoll(s) == if digits != "" && -two64 <= 2 * v < two64 then Some(v) else None)
            && (Stoull(s) == if digits != "" && n < two64 then Some(v % two64) else None)
            && (Strtoull(s).0 == if digits == "" then 0 else if n < two64 then v % two64 else two64 - 1)
            && (Strtoull(s).1 <==> if digits == "" then s == "" else rest == "")
  {
    hide ScanInteger, DigitsValue;
    ScanOfText(s, blanks, sign, digits, rest);
  }

  /** There is no string that is not read so. */
  lemma {:induction false} TextsSplit(s: string) returns (blanks: string, sign: string, digits: string, rest: string)
    ensures NumberText(s, blanks, sign, digits, rest)
  {
    if s != "" && Blank(s[0]) {
      blanks, sign, digits, rest := TextsSplit(s[1..]);
      blanks := [s[0]] + blanks;
      assert s == [s[0]] + s[1..];
    } else {
      blanks, sign := "", if s != "" && s[0] in {'+', '-'} then [s[0]] else "";
      digits, rest := DigitsFirst(s[|sign|..]);
    }
  }

  lemma {:induction false} DigitsFirst(s: string) returns (digits: string, rest: string)
    ensures s == digits + rest && AllDigits(digits) && (rest != "" ==> !IsDigit(rest[0]))
  {
    if s != "" && IsDigit(s[0]) {
      digits, rest := DigitsFirst(s[1..]);
      digits := [s[0]] + digits;
    } else {
      digits, rest := "", s;
    }
  }

  /** Parsing a printed 64-bit time gives the time back, negative times included. */
  lemma StollOfPrinted(t: int)
    requires INT64_MIN <= t <= INT64_MAX
    ensures Stoll(IntToString(t)) == Some(t)
  {
    hide ScanInteger, NatToString;
    var n := if t < 0 then -t else t;
    NatTextRoundTrip(n);
    if t < 0 {
      ScanOfNegative(NatToString(n));
    } else {
      ScanOfDigits(NatToString(n));
    }
  }

  lemma UnsignedOfPrinted(n: nat)
    requires n < UINT64_MODULUS
    ensures Strtoull(NatToString(n)) == (n, true)
    ensures Stoull(NatToString(n)) == Some(n)
  {
    NatTextRoundTrip(n);
    ScanOfDigits(NatToString(n));
  }

  // ---------------------------------------------------------------- split

  /** The parts glued back together with the delimiter: the inverse of splitting. */
  function Join(parts: seq<string>, d: char): string {
    if |parts| == 0 then ""
    else if |parts| == 1 then parts[0]
    else parts[0] + [d] + Join(parts[1..], d)
  }

  predicate NoDelimiter(parts: seq<string>, d: char) {
    forall i :: 0 <= i < |parts| ==> d !in parts[i]
  }

  function FirstIndex(s: string, d: char): (i: nat)
    ensures i <= |s| && d !in s[..i] && (i < |s| ==> s[i] == d)
  {
    if s == "" || s[0] == d then 0
    else
      var r := FirstIndex(s[1..], d);
      assert s[..r + 1] == [s[0]] + s[1..][..r];
      r + 1
  }

  function SplitAt(s: string, d: char): (parts: seq<string>)
    ensures |parts| > 0
    decreases |s|
  {
    var i := FirstIndex(s, d);
    if i == |s| then [s] else [s[..i]] + SplitAt(s[i + 1..], d)
  }

  lemma {:induction false} FirstIndexSkips(p: string, rest: string, d: char)
    requires d !in p && (rest == "" || rest[0] == d)
    ensures FirstIndex(p + rest, d) == |p|
  {
    if p != "" {
      assert p[0] != d && (p + rest)[1..] == p[1..] + rest;
      FirstIndexSkips(p[1..], rest, d);
    } else {
      assert p + rest == rest;
    }
  }

  /** Splitting undoes joining: the parts come back, each with its text, in order. */
  lemma {:induction false} SplitUndoesJoin(parts: seq<string>, d: char)
    requires |parts| > 0 && NoDelimiter(parts, d)
    ensures SplitAt(Join(parts, d), d) == parts
  {
    var s := Join(parts, d);
    if |parts| == 1 {
      FirstIndexSkips(parts[0], "", d);
      assert s == parts[0] + "";
    } else {
      var tail := [d] + Join(parts[1..], d);
      assert s == parts[0] + tail;
      FirstIndexSkips(parts[0], tail, d);
      assert s[..|parts[0]|] == parts[0] && s[|parts[0]| + 1..] == Join(parts[1..], d);
      SplitUndoesJoin(parts[1..], d);
    }
  }

  lemma {:induction false} JoinExtendsLast(done: seq<string>, word: string, c: char, d: char)
    ensures Join(done + [word], d) + [c] == Join(done + [word + [c]], d)
  {
    if |done| > 0 {
      JoinExtendsLast(done[1..], word, c, d);
      assert (done + [word])[1..] == done[1..] + [word];
      assert (done + [word + [c]])[1..] == done[1..] + [word + [c]];
    }
  }

  lemma {:induction false} JoinOpensWord(done: seq<string>, word: string, d: char)
    ensures Join(done + [word], d) + [d] == Join(done + [word, ""], d)
  {
    if |done| > 0 {
      JoinOpensWord(done[1..], word, d);
      assert (done + [word])[1..] == done[1..] + [word];
      assert (done + [word, ""])[1..] == done[1..] + [word, ""];
    } else {
      assert [word, ""][1..] == [""];
    }
  }

  /** The character loop of split(): words are closed at every delimiter. */
  method Split(str: string, delimiter: char) returns (words: seq<string>)
    ensures words == SplitAt(str, delimiter)
    ensures |words| > 0 && NoDelimiter(words, delimiter) && Join(words, delimiter) == str
  {
    words := [];
    var temp := "";
    var i := 0;
    while i < |str|
      invariant 0 <= i <= |str|
      invariant NoDelimiter(words, delimiter) && delimiter !in temp
      invariant Join(words + [temp], delimiter) == str[..i]
    {
      assert str[..i + 1] == str[..i] + [str[i]];
      if str[i] != delimiter {
        JoinExtendsLast(words, temp, str[i], delimiter);
        temp := temp + [str[i]];
      } else {
        JoinOpensWord(words, temp, delimiter);
        assert words + [temp, ""] == (words + [temp]) + [""];
        words := words + [temp];
        temp := "";
      }
      i := i + 1;
    }
    assert str[..i] == str;
    words := words + [temp];
    SplitUndoesJoin(words, delimiter);
  }

  // ---------------------------------------------------------------- directory names

  /** GetDirectoryName(): the directory of one compaction window. */
  function DirectoryName(boot: string, stamp: nat): string {
    "BootCount_" + boot + "_DateStamp_" + NatToString(stamp)
  }

  lemma JoinFour(a: string, b: string, c: string, e: string, d: char)
    ensures Join([a, b, c, e], d) == a + [d] + (b + [d] + (c + [d] + e))
  {
    assert [c, e][1..] == [e];
    assert Join([c, e], d) == c + [d] + e;
    assert [b, c, e][1..] == [c, e];
    assert Join([b, c, e], d) == b + [d] + (c + [d] + e);
    assert [a, b, c, e][1..] == [b, c, e];
  }

  /** A window directory always splits into the four fields the compactor reads back. */
  lemma DirectoryNameFields(boot: string, stamp: nat)
    requires '_' !in boot
    ensures SplitAt(DirectoryName(boot, stamp), '_') == ["BootCount", boot, "DateStamp", NatToString(stamp)]
  {
    hide NatToString, Join, SplitAt;
    NatTextRoundTrip(stamp);
    var text := NatToString(stamp);
    JoinFour("BootCount", boot, "DateStamp", text, '_');
    assert "BootCount" + ['_'] + (boot + ['_'] + ("DateStamp" + ['_'] + text)) == DirectoryName(boot, stamp);
    SplitUndoesJoin(["BootCount", boot, "DateStamp", text], '_');
  }

  lemma DirectoryNameInjective(boot: string, a: nat, b: nat)
    requires '_' !in boot && DirectoryName(boot, a) == DirectoryName(boot, b)
    ensures a == b
  {
    DirectoryNameFields(boot, a);
    DirectoryNameFields(boot, b);
    NatTextInjective(a, b);
  }

  // ---------------------------------------------------------------- searching

  /** std::string::find(sub) != npos. */
  predicate Contains(s: string, sub: string) {
    |sub| <= |s| && (s[..|sub|] == sub || (s != "" && Contains(s[1..], sub)))
  }

  /** sub stands in s at position i. */
  predicate StandsAt(s: string, sub: string, i: int) {
    0 <= i <= |s| - |sub| && forall k :: 0 <= k < |sub| ==> s[i + k] == sub[k]
  }

  predicate Occurs(s: string, sub: string) {
    exists i :: 0 <= i <= |s| && StandsAt(s, sub, i)
  }

  lemma StandsInTail(s: string, sub: string, i: int)
    requires s != "" && i > 0
    ensures StandsAt(s, sub, i) <==> StandsAt(s[1..], sub, i - 1)
  {
  }

  lemma {:induction false} ContainsIff(s: string, sub: string)
    ensures Contains(s, sub) <==> Occurs(s, sub)
  {
    assert |sub| <= |s| && s[..|sub|] == sub <==> StandsAt(s, sub, 0);
    if s != "" {
      ContainsIff(s[1..], sub);
      forall i | 0 < i ensures StandsAt(s, sub, i) <==> StandsAt(s[1..], sub, i - 1) {
        StandsInTail(s, sub, i);
      }
      forall i | 0 <= i && StandsAt(s[1..], sub, i) ensures StandsAt(s, sub, i + 1) {
        StandsInTail(s, sub, i + 1);
      }
    }
  }

  predicate StartsWith(s: string, prefix: string) {
    |prefix| <= |s| && s[..|prefix|] == prefix
  }

  predicate EndsWith(s: string, suffix: string) {
    |suffix| <= |s| && s[|s| - |suffix|..] == suffix
  }
}

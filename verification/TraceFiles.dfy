/**
 Rotating output files and reading them back: how batches of lines are laid out
 over numbered files, and what a reader of those files sees.
 */
module TraceFiles {
  import opened Records
  import opened Sequences

  type Batch = seq<string>

  // ------------------------------------------------------------------ content

  /** The lines, each followed by a line break. */
  function Terminated(lines: Batch): string {
    if lines == [] then "" else lines[0] + "\n" + Terminated(lines[1..])
  }

  function JoinLines(lines: Batch): string {
    if lines == [] then "" else if |lines| == 1 then lines[0] else lines[0] + "\n" + JoinLines(lines[1..])
  }

  lemma {:induction false} JoinedThenEnded(lines: Batch)
    requires lines != []
    ensures JoinLines(lines) + "\n" == Terminated(lines)
    decreases |lines|
  {
    if |lines| == 1 {
      assert lines[1..] == [];
    } else {
      JoinedThenEnded(lines[1..]);
    }
  }

  /** The bytes of one file. */
  function Data(batches: seq<Batch>): string {
    if batches == [] then "" else Data(batches[..|batches| - 1]) + Terminated(batches[|batches| - 1])
  }

  // ------------------------------------------------------------------- layout

  /** Where one more batch goes; an empty batch writes nothing. */
  function Place(files: seq<seq<Batch>>, b: Batch, rotateBytes: int): (r: seq<seq<Batch>>)
    requires files != []
    ensures r != []
  {
    var open := files[|files| - 1] + [b];
    if b == [] then files
    else files[..|files| - 1] + [open] + (if |Data(open)| >= rotateBytes then [[]] else [])
  }

  /** The batches of each file, the open file last. */
  function Layout(batches: seq<Batch>, rotateBytes: int): (r: seq<seq<Batch>>)
    ensures r != []
  {
    if batches == [] then [[]]
    else Place(Layout(batches[..|batches| - 1], rotateBytes), batches[|batches| - 1], rotateBytes)
  }

  function NonEmpty(batches: seq<Batch>): seq<Batch> {
    if batches == [] then []
    else NonEmpty(batches[..|batches| - 1]) + (if batches[|batches| - 1] == [] then [] else [batches[|batches| - 1]])
  }

  lemma PlaceAppends(files: seq<seq<Batch>>, b: Batch, rotateBytes: int)
    requires files != []
    ensures Concat(Place(files, b, rotateBytes)) == Concat(files) + (if b == [] then [] else [b])
  {
    var front, open := files[..|files| - 1], files[|files| - 1];
    if b == [] {
      assert Concat(files) + [] == Concat(files);
    } else {
      ConcatAppend(front, open + [b]);
      ConcatAppend(front + [open + [b]], []);
      assert front + [open + [b]] + [] == front + [open + [b]];
      Regroup(Concat(front), open, [b]);
    }
  }

  /** Every batch is in one file, whole, and the files keep the order of the batches. */
  lemma {:induction false} LayoutKeepsBatches(batches: seq<Batch>, rotateBytes: int)
    ensures Concat(Layout(batches, rotateBytes)) == NonEmpty(batches)
    decreases |batches|
  {
    if batches == [] {
      ConcatAppend<Batch>([], []);
    } else {
      LayoutKeepsBatches(batches[..|batches| - 1], rotateBytes);
      PlaceAppends(Layout(batches[..|batches| - 1], rotateBytes), batches[|batches| - 1], rotateBytes);
    }
  }

  /** A closed file reached the limit with its last batch and not before. */
  ghost predicate ClosedOnTime(file: seq<Batch>, rotateBytes: int) {
    && file != []
    && |Data(file[..|file| - 1])| < rotateBytes <= |Data(file)|
  }

  ghost predicate OnTime(files: seq<seq<Batch>>, rotateBytes: int) {
    && files != []
    && (forall i :: 0 <= i < |files| - 1 ==> ClosedOnTime(files[i], rotateBytes))
    && |Data(files[|files| - 1])| < rotateBytes
  }

  lemma PlaceIsOnTime(files: seq<seq<Batch>>, b: Batch, rotateBytes: int)
    requires rotateBytes > 0 && OnTime(files, rotateBytes)
    ensures OnTime(Place(files, b, rotateBytes), rotateBytes)
  {
    var n, last := |files| - 1, files[|files| - 1];
    var open := last + [b];
    assert open[..|open| - 1] == last;
    if b != [] {
      var placed := Place(files, b, rotateBytes);
      assert forall i :: 0 <= i < n ==> placed[i] == files[i];
      assert placed[n] == open;
    }
  }

  /** Whatever the batches, closed files crossed the limit with their last batch and the open one is below it. */
  lemma {:induction false} RotationIsOnTime(batches: seq<Batch>, rotateBytes: int)
    requires rotateBytes > 0
    ensures OnTime(Layout(batches, rotateBytes), rotateBytes)
    decreases |batches|
  {
    if batches == [] {
    } else {
      RotationIsOnTime(batches[..|batches| - 1], rotateBytes);
      PlaceIsOnTime(Layout(batches[..|batches| - 1], rotateBytes), batches[|batches| - 1], rotateBytes);
    }
  }

  // ------------------------------------------------------------------ reading

  predicate IsBreak(c: char) {
    c == '\n' || c == '\r'
  }

  predicate IsSpace(c: char) {
    IsBreak(c) || c == ' ' || c == '\t' || c == '\U{0b}' || c == '\U{0c}'
  }

  function LineLength(text: string): (n: nat)
    ensures n <= |text| && (forall i :: 0 <= i < n ==> !IsBreak(text[i])) && (n < |text| ==> IsBreak(text[n]))
  {
    if text == "" || IsBreak(text[0]) then 0 else 1 + LineLength(text[1..])
  }

  /** The pieces between line breaks. */
  function Lines(text: string): seq<string>
    decreases |text|
  {
    if text == "" then []
    else
      var n := LineLength(text);
      [text[..n]] + (if n == |text| then [] else Lines(text[n + 1..]))
  }

  function Strip(line: string): string
    decreases |line|
  {
    if line == "" then ""
    else if IsSpace(line[0]) then Strip(line[1..])
    else if IsSpace(line[|line| - 1]) then Strip(line[..|line| - 1])
    else line
  }

  /** The non-blank lines of a text, stripped. */
  function Stripped(lines: seq<string>): seq<string> {
    if lines == [] then []
    else Stripped(lines[..|lines| - 1]) +
         (if Strip(lines[|lines| - 1]) == "" then [] else [Strip(lines[|lines| - 1])])
  }

  /** What stripping cuts. */
  const BLANKS := " \t\n\r\U{0b}\U{0c}"

  /** A stripped line is the line without the blanks at its ends: nothing else is cut, and no blank is left there. */
  lemma {:induction false} StripTrims(line: string) returns (pre: string, post: string)
    ensures line == pre + Strip(line) + post
    ensures forall c :: c in pre || c in post ==> c in BLANKS
    ensures Strip(line) != "" ==> Strip(line)[0] !in BLANKS && Strip(line)[|Strip(line)| - 1] !in BLANKS
    decreases |line|
  {
    pre, post := "", "";
    if line == "" {
    } else if IsSpace(line[0]) {
      pre, post := StripTrims(line[1..]);
      assert line == [line[0]] + line[1..];
      pre := [line[0]] + pre;
    } else if IsSpace(line[|line| - 1]) {
      pre, post := StripTrims(line[..|line| - 1]);
      assert line == line[..|line| - 1] + [line[|line| - 1]];
      post := post + [line[|line| - 1]];
    } else {
      assert line == "" + line + "";
    }
  }

  /** The lines put together again: the text, but that each break is a line feed, and one may be missing at its end. */
  function Broken(text: string): string {
    if text == "" then ""
    else if text[0] == '\n' || text[0] == '\r' then "\n" + Broken(text[1..])
    else [text[0]] + Broken(text[1..])
  }

  lemma {:induction false} BrokenSplits(a: string, b: string)
    ensures Broken(a + b) == Broken(a) + Broken(b)
    decreases |a|
  {
    if a == "" {
      assert a + b == b;
    } else {
      assert (a + b)[1..] == a[1..] + b && (a + b)[0] == a[0];
      BrokenSplits(a[1..], b);
    }
  }

  lemma {:induction false} UnbrokenStays(line: string)
    requires forall i :: 0 <= i < |line| ==> !IsBreak(line[i])
    ensures Broken(line) == line
    decreases |line|
  {
    if line == "" {
    } else {
      UnbrokenStays(line[1..]);
      assert line == [line[0]] + line[1..];
    }
  }

  /** Up to its first break a text is its first line. */
  lemma BrokenHead(line: string, c: char, rest: string)
    requires IsBreak(c) && forall i :: 0 <= i < |line| ==> !IsBreak(line[i])
    ensures Broken(line + ([c] + rest)) == line + "\n" + Broken(rest)
  {
    var tail := [c] + rest;
    assert tail[1..] == rest;
    UnbrokenStays(line);
    BrokenSplits(line, tail);
    assert Broken(tail) == "\n" + Broken(rest);
    hide Broken;
    Regroup(line, "\n", Broken(rest));
  }

  lemma SplitAt(text: string, n: nat)
    requires n < |text|
    ensures text == text[..n] + ([text[n]] + text[n + 1..])
  {
  }

  lemma LinesHead(text: string)
    requires LineLength(text) < |text|
    ensures Lines(text) == [text[..LineLength(text)]] + Lines(text[LineLength(text) + 1..])
  {
  }

  lemma TerminatedCons(line: string, more: Batch)
    ensures Terminated([line] + more) == line + "\n" + Terminated(more)
  {
    assert ([line] + more)[1..] == more;
  }

  /** The lines, each ended, are the whole text: only the form of a break and a missing last one are lost. */
  lemma {:induction false} LinesAreTheText(text: string)
    ensures Terminated(Lines(text)) == Broken(text) || Terminated(Lines(text)) == Broken(text) + "\n"
    decreases |text|
  {
    if text == "" {
    } else if LineLength(text) == |text| {
      UnbrokenStays(text);
      assert text[..|text|] == text && [text][1..] == [];
    } else {
      var n := LineLength(text);
      var line, rest := text[..n], text[n + 1..];
      SplitAt(text, n);
      LinesHead(text);
      TerminatedCons(line, Lines(rest));
      BrokenHead(line, text[n], rest);
      LinesAreTheText(rest);
      hide Broken, Terminated, Lines;
      Regroup(line + "\n", Broken(rest), "\n");
    }
  }

  /** No line has a break in it. */
  lemma {:induction false} LinesAreUnbroken(text: string)
    ensures forall i, j :: 0 <= i < |Lines(text)| && 0 <= j < |Lines(text)[i]| ==>
      Lines(text)[i][j] != '\n' && Lines(text)[i][j] != '\r'
    decreases |text|
  {
    if text == "" {
    } else if LineLength(text) < |text| {
      LinesAreUnbroken(text[LineLength(text) + 1..]);
    }
  }

  ghost predicate StripsTo(lines: seq<string>, x: string) {
    exists i :: 0 <= i < |lines| && Strip(lines[i]) == x
  }

  lemma StripsToAppend(lines: seq<string>, last: string, x: string)
    ensures StripsTo(lines + [last], x) <==> StripsTo(lines, x) || Strip(last) == x
  {
    if i :| 0 <= i < |lines| && Strip(lines[i]) == x {
      assert Strip((lines + [last])[i]) == x;
    }
    assert (lines + [last])[|lines|] == last;
  }

  /** Only blank lines are dropped. */
  lemma {:induction false} StrippedHolds(lines: seq<string>, x: string)
    ensures x in Stripped(lines) <==> x != "" && StripsTo(lines, x)
    decreases |lines|
  {
    if lines == [] {
    } else {
      var front, last := lines[..|lines| - 1], lines[|lines| - 1];
      StrippedHolds(front, x);
      StripsToAppend(front, last, x);
      assert lines == front + [last];
    }
  }

  /** An encoding as JSON gives it: no raw line break and no blank at either end. */
  predicate IsClean(line: string) {
    && line != "" && !IsSpace(line[0]) && !IsSpace(line[|line| - 1])
    && forall i :: 0 <= i < |line| ==> !IsBreak(line[i])
  }

  ghost predicate CleanLines(lines: Batch) {
    forall i :: 0 <= i < |lines| ==> IsClean(lines[i])
  }

  ghost predicate AllClean(batches: seq<Batch>) {
    forall i :: 0 <= i < |batches| ==> CleanLines(batches[i])
  }

  lemma {:induction false} FirstLine(line: string, rest: string)
    requires forall i :: 0 <= i < |line| ==> !IsBreak(line[i])
    ensures LineLength(line + "\n" + rest) == |line|
    decreases |line|
  {
    var text := line + "\n" + rest;
    if line == "" {
    } else {
      FirstLine(line[1..], rest);
      assert text[1..] == line[1..] + "\n" + rest;
    }
  }

  lemma LinesStep(line: string, rest: string)
    requires IsClean(line)
    ensures Lines(line + "\n" + rest) == [line] + Lines(rest)
  {
    var text := line + "\n" + rest;
    FirstLine(line, rest);
    assert text[..|line|] == line && text[|line| + 1..] == rest;
  }

  lemma TerminatedHead(lines: Batch, rest: string)
    requires lines != []
    ensures Terminated(lines) + rest == lines[0] + "\n" + (Terminated(lines[1..]) + rest)
    ensures lines + Lines(rest) == [lines[0]] + (lines[1..] + Lines(rest))
  {
    Regroup(lines[0] + "\n", Terminated(lines[1..]), rest);
    Regroup([lines[0]], lines[1..], Lines(rest));
    assert lines == [lines[0]] + lines[1..];
  }

  lemma {:induction false} LinesOfTerminated(lines: Batch, rest: string)
    requires CleanLines(lines)
    ensures Lines(Terminated(lines) + rest) == lines + Lines(rest)
    decreases |lines|
  {
    if lines == [] {
      assert Terminated(lines) + rest == rest;
    } else {
      var more := Terminated(lines[1..]) + rest;
      TerminatedHead(lines, rest);
      LinesStep(lines[0], more);
      LinesOfTerminated(lines[1..], rest);
    }
  }

  lemma {:induction false} LinesOfData(batches: seq<Batch>, rest: string)
    requires AllClean(batches)
    ensures Lines(Data(batches) + rest) == Concat(batches) + Lines(rest)
    decreases |batches|
  {
    if batches == [] {
      assert Data(batches) + rest == rest;
    } else {
      var front, last := batches[..|batches| - 1], batches[|batches| - 1];
      assert Data(batches) + rest == Data(front) + (Terminated(last) + rest);
      LinesOfData(front, Terminated(last) + rest);
      LinesOfTerminated(last, rest);
      assert Concat(front) + (last + Lines(rest)) == Concat(front) + last + Lines(rest);
    }
  }

  lemma {:induction false} CleanLinesStay(lines: seq<string>)
    requires CleanLines(lines)
    ensures Stripped(lines) == lines
    decreases |lines|
  {
    if lines == [] {
    } else {
      CleanLinesStay(lines[..|lines| - 1]);
      assert lines == lines[..|lines| - 1] + [lines[|lines| - 1]];
    }
  }

  /** What reading the files in order yields. */
  function ReadBack(contents: seq<string>): seq<string> {
    if contents == [] then []
    else ReadBack(contents[..|contents| - 1]) + Stripped(Lines(contents[|contents| - 1]))
  }

  function Contents(files: seq<seq<Batch>>): (r: seq<string>)
    ensures |r| == |files| && forall i :: 0 <= i < |r| ==> r[i] == Data(files[i])
  {
    seq(|files|, i requires 0 <= i < |files| => Data(files[i]))
  }

  lemma {:induction false} ConcatIsClean(batches: seq<Batch>)
    requires AllClean(batches)
    ensures CleanLines(Concat(batches))
    decreases |batches|
  {
    if batches == [] {
    } else {
      ConcatIsClean(batches[..|batches| - 1]);
    }
  }

  lemma {:induction false} FilesReadBack(files: seq<seq<Batch>>)
    requires forall i :: 0 <= i < |files| ==> AllClean(files[i])
    ensures ReadBack(Contents(files)) == Concat(Concat(files))
    decreases |files|
  {
    if files == [] {
    } else {
      var front, last := files[..|files| - 1], files[|files| - 1];
      FilesReadBack(front);
      assert Contents(files)[..|files| - 1] == Contents(front);
      LinesOfData(last, "");
      assert Data(last) + "" == Data(last) && Concat(last) + Lines("") == Concat(last);
      ConcatIsClean(last);
      CleanLinesStay(Concat(last));
      ConcatSplits(Concat(front), last);
    }
  }

  lemma {:induction false} DroppingEmptiesLosesNothing(batches: seq<Batch>)
    ensures Concat(NonEmpty(batches)) == Concat(batches)
    ensures forall b :: b in NonEmpty(batches) ==> b in batches
    decreases |batches|
  {
    if batches == [] {
    } else {
      var front, last := batches[..|batches| - 1], batches[|batches| - 1];
      DroppingEmptiesLosesNothing(front);
      ConcatAppend(NonEmpty(front), last);
      assert NonEmpty(front) + [] == NonEmpty(front) && Concat(front) + [] == Concat(front);
    }
  }

  /**
   Rotation and read-back: whatever the limit and the batches, the files read in
   order yield exactly the lines written, in the order they were written.
   */
  lemma ReadBackIsExact(batches: seq<Batch>, rotateBytes: int)
    requires AllClean(batches)
    ensures ReadBack(Contents(Layout(batches, rotateBytes))) == Concat(batches)
  {
    var files := Layout(batches, rotateBytes);
    LayoutKeepsBatches(batches, rotateBytes);
    DroppingEmptiesLosesNothing(batches);
    forall i, j | 0 <= i < |files| && 0 <= j < |files[i]|
      ensures CleanLines(files[i][j])
    {
      PartsAreInConcat(files, files[i], files[i][j]);
      assert files[i][j] in batches;
    }
    assert forall i :: 0 <= i < |files| ==> AllClean(files[i]);
    FilesReadBack(files);
  }

  // -------------------------------------------------------------------- names

  function Decimal(n: nat): string {
    (if n < 10 then "" else Decimal(n / 10)) + [('0' as int + n % 10) as char]
  }

  function Zeros(n: nat): string {
    if n == 0 then "" else "0" + Zeros(n - 1)
  }

  /** The sequence number, padded to four digits. */
  function Padded(n: nat): string {
    (if |Decimal(n)| < 4 then Zeros(4 - |Decimal(n)|) else "") + Decimal(n)
  }

  function FileName(base: string, n: nat): string {
    base + "." + Padded(n) + ".jsonl"
  }

  /** Order of strings by code point. */
  predicate Less(a: string, b: string) {
    if b == "" then false
    else if a == "" then true
    else a[0] < b[0] || (a[0] == b[0] && Less(a[1..], b[1..]))
  }

  function Value(digits: string): int {
    if digits == "" then 0
    else 10 * Value(digits[..|digits| - 1]) + (digits[|digits| - 1] as int - '0' as int)
  }

  lemma {:induction false} DecimalHasValue(n: nat)
    ensures Value(Decimal(n)) == n
    decreases n
  {
    var d := [('0' as int + n % 10) as char];
    if n >= 10 {
      DecimalHasValue(n / 10);
      assert (Decimal(n / 10) + d)[..|Decimal(n / 10)|] == Decimal(n / 10);
    } else {
      assert Decimal(n)[..0] == "";
    }
  }

  lemma {:induction false} ZerosHaveNoValue(k: nat, digits: string)
    ensures Value(Zeros(k) + digits) == Value(digits)
    decreases k + |digits|
  {
    if digits != "" {
      assert (Zeros(k) + digits)[..|Zeros(k) + digits| - 1] == Zeros(k) + digits[..|digits| - 1];
      ZerosHaveNoValue(k, digits[..|digits| - 1]);
    } else if k > 0 {
      ZerosCommute(k - 1);
      ZerosHaveNoValue(k - 1, "");
      assert (Zeros(k) + "")[..k - 1] == Zeros(k - 1) + "" by { ZerosLength(k); }
    }
  }

  lemma {:induction false} ZerosLength(k: nat)
    ensures |Zeros(k)| == k
    decreases k
  {
    if k == 0 {
    } else {
      ZerosLength(k - 1);
    }
  }

  lemma {:induction false} ZerosCommute(k: nat)
    ensures "0" + Zeros(k) == Zeros(k) + "0"
    decreases k
  {
    if k == 0 {
    } else {
      ZerosCommute(k - 1);
    }
  }

  lemma PaddedHasValue(n: nat)
    ensures Value(Padded(n)) == n
  {
    DecimalHasValue(n);
    if |Decimal(n)| < 4 {
      ZerosHaveNoValue(4 - |Decimal(n)|, Decimal(n));
    } else {
      assert Padded(n) == Decimal(n);
    }
  }

  lemma NameHasNumber(base: string, n: nat)
    ensures var name := FileName(base, n); |name| > |base| + 6 && name[|base| + 1..|name| - 6] == Padded(n)
  {
  }

  /** Different sequence numbers never share a file. */
  lemma NamesAreDistinct(base: string, i: nat, j: nat)
    requires FileName(base, i) == FileName(base, j)
    ensures i == j
  {
    NameHasNumber(base, i);
    NameHasNumber(base, j);
    PaddedHasValue(i);
    PaddedHasValue(j);
  }

  lemma {:induction false} LessAfterPrefix(p: string, a: string, b: string)
    ensures Less(p + a, p + b) == Less(a, b)
    decreases |p|
  {
    if p == "" {
      assert p + a == a && p + b == b;
    } else {
      assert (p + a)[1..] == p[1..] + a && (p + b)[1..] == p[1..] + b;
      LessAfterPrefix(p[1..], a, b);
    }
  }

  function Digit(d: nat): char
    requires d < 10
  {
    ('0' as int + d) as char
  }

  lemma ThreeDigits(n: nat)
    requires n < 1000
    ensures n < 10 ==> Decimal(n) == [Digit(n)]
    ensures 10 <= n < 100 ==> Decimal(n) == [Digit(n / 10), Digit(n % 10)]
    ensures 100 <= n ==> Decimal(n) == [Digit(n / 100), Digit(n / 10 % 10), Digit(n % 10)]
    decreases n
  {
    if n >= 10 {
      assert n / 10 / 10 == n / 100;
      ThreeDigits(n / 10);
    }
  }

  lemma FourDigits(n: nat)
    requires n < 10000
    ensures Padded(n) == [Digit(n / 1000), Digit(n / 100 % 10), Digit(n / 10 % 10), Digit(n % 10)]
  {
    if n < 1000 {
      ThreeDigits(n);
      assert Zeros(3) == "000" && Zeros(2) == "00" && Zeros(1) == "0";
    } else {
      ThreeDigits(n / 10);
      assert n / 10 / 10 == n / 100 && n / 10 / 100 == n / 1000;
    }
  }

  /** The first place where two names differ decides their order. */
  lemma LessAt(a: string, b: string, k: nat)
    requires k < |a| && k < |b| && a[..k] == b[..k] && a[k] < b[k]
    ensures Less(a, b)
  {
    LessAfterPrefix(a[..k], a[k..], b[k..]);
    assert a[..k] + a[k..] == a && a[..k] + b[k..] == b;
  }

  lemma DigitsDecompose(n: nat)
    requires n < 10000
    ensures n == 1000 * (n / 1000) + 100 * (n / 100 % 10) + 10 * (n / 10 % 10) + n % 10
  {
    assert n / 100 / 10 == n / 1000 && n / 10 / 10 == n / 100;
  }

  /** The first decimal place, of four, in which two numbers differ. */
  lemma FirstDifference(i: nat, j: nat) returns (k: nat)
    requires i < j < 10000
    ensures k < 4 && DecimalPlace(i, k) < DecimalPlace(j, k)
    ensures forall m :: 0 <= m < k ==> DecimalPlace(i, m) == DecimalPlace(j, m)
  {
    DigitsDecompose(i);
    DigitsDecompose(j);
    k := if i / 1000 < j / 1000 then 0 else if i / 100 % 10 < j / 100 % 10 then 1
         else if i / 10 % 10 < j / 10 % 10 then 2 else 3;
  }

  function DecimalPlace(n: nat, k: nat): nat
    requires n < 10000
  {
    if k == 0 then n / 1000 else if k == 1 then n / 100 % 10 else if k == 2 then n / 10 % 10 else n % 10
  }

  lemma FourDigitsInOrder(i: nat, j: nat, rest: string)
    requires i < j < 10000
    ensures Less(Padded(i) + rest, Padded(j) + rest)
  {
    var a, b := Padded(i) + rest, Padded(j) + rest;
    FourDigits(i);
    FourDigits(j);
    var k := FirstDifference(i, j);
    assert forall m :: 0 <= m < 4 ==> a[m] == Digit(DecimalPlace(i, m)) && b[m] == Digit(DecimalPlace(j, m));
    assert a[..k] == b[..k];
    LessAt(a, b, k);
  }

  lemma TenThousand()
    ensures Padded(10000) == "10000"
  {
    assert Decimal(1) == "1" && Decimal(10) == "10" && Decimal(100) == "100" && Decimal(1000) == "1000";
  }

  lemma FiveDigitsComeTooEarly(base: string)
    ensures !Less(FileName(base, 9999), FileName(base, 10000))
  {
    FourDigits(9999);
    TenThousand();
    var a, b := Padded(9999) + ".jsonl", Padded(10000) + ".jsonl";
    assert a[0] == '9' && b[0] == '1' && a != "" && b != "";
    assert !Less(a, b);
    NamesCompare(base, 9999, 10000);
  }

  lemma NamesCompare(base: string, i: nat, j: nat)
    ensures Less(FileName(base, i), FileName(base, j)) == Less(Padded(i) + ".jsonl", Padded(j) + ".jsonl")
  {
    LessAfterPrefix(base + ".", Padded(i) + ".jsonl", Padded(j) + ".jsonl");
    assert base + "." + (Padded(i) + ".jsonl") == FileName(base, i);
    assert base + "." + (Padded(j) + ".jsonl") == FileName(base, j);
  }

  /** Sorting the names gives the order of writing if and only if there are at most 9999 files. */
  lemma SortedNamesFollowWriting(base: string, n: nat)
    ensures (forall i, j :: 1 <= i < j <= n ==> Less(FileName(base, i), FileName(base, j))) <==> n <= 9999
  {
    if n <= 9999 {
      forall i, j | 1 <= i < j <= n
        ensures Less(FileName(base, i), FileName(base, j))
      {
        FourDigitsInOrder(i, j, ".jsonl");
        NamesCompare(base, i, j);
      }
    } else {
      FiveDigitsComeTooEarly(base);
    }
  }

  // --------------------------------------------------------------------- disk

  predicate FileHolds(disk: map<string, string>, base: string, n: nat, file: seq<Batch>) {
    FileName(base, n) in disk && disk[FileName(base, n)] == Data(file)
  }

  predicate StoredAt(disk: map<string, string>, base: string, files: seq<seq<Batch>>, n: nat) {
    if 1 <= n <= |files| then FileHolds(disk, base, n, files[n - 1])
    else n > 0 ==> FileName(base, n) !in disk
  }

  /** The disk holds exactly these files, numbered from one. */
  ghost predicate Stored(disk: map<string, string>, base: string, files: seq<seq<Batch>>) {
    forall n: nat :: StoredAt(disk, base, files, n)
  }

  lemma AppendStores(disk: map<string, string>, base: string, files: seq<seq<Batch>>, b: Batch)
    requires files != [] && Stored(disk, base, files)
    ensures var n := |files|;
      && FileHolds(disk, base, n, files[n - 1])
      && Stored(disk[FileName(base, n) := disk[FileName(base, n)] + Terminated(b)], base,
                files[..n - 1] + [files[n - 1] + [b]])
  {
    var n := |files|;
    var open := files[n - 1] + [b];
    assert StoredAt(disk, base, files, n);
    assert open[..|open| - 1] == files[n - 1];
    var disk' := disk[FileName(base, n) := disk[FileName(base, n)] + Terminated(b)];
    var files' := files[..n - 1] + [open];
    forall k: nat
      ensures StoredAt(disk', base, files', k)
    {
      assert StoredAt(disk, base, files, k);
      if FileName(base, k) == FileName(base, n) { NamesAreDistinct(base, k, n); }
    }
  }

  lemma OpenStores(disk: map<string, string>, base: string, files: seq<seq<Batch>>)
    requires Stored(disk, base, files)
    ensures var next := FileName(base, |files| + 1); next !in disk && Stored(disk[next := ""], base, files + [[]])
  {
    var n := |files| + 1;
    assert StoredAt(disk, base, files, n);
    var disk', files' := disk[FileName(base, n) := ""], files + [[]];
    forall k: nat
      ensures StoredAt(disk', base, files', k)
    {
      assert StoredAt(disk, base, files, k);
      if FileName(base, k) == FileName(base, n) { NamesAreDistinct(base, k, n); }
    }
  }
}

/** Restricting the mutants to the lines of a git diff: the hunk parser and the filter. */
module Diff {
  import opened Scalars
  import opened Seqs
  import opened Text
  import opened Keys

  datatype LineRange = LineRange(file: string, start: u32, end: u32)

  // ---------------------------------------------------------------- the filter

  /** Equal, or ending with the diff's path behind a separator. */
  predicate PathMatch(mutFile: string, diffFile: string) {
    || mutFile == diffFile
    || (|mutFile| > |diffFile|
        && var off := |mutFile| - |diffFile|;
           (mutFile[off - 1] == '/' || mutFile[off - 1] == '\\') && mutFile[off..] == diffFile)
  }

  /** What that means: some directory in front of the path. */
  lemma PathMatchMeans(mutFile: string, diffFile: string)
    ensures PathMatch(mutFile, diffFile) <==>
            || mutFile == diffFile
            || exists dir: string :: mutFile == dir + "/" + diffFile || mutFile == dir + "\\" + diffFile
  {
    if PathMatch(mutFile, diffFile) && mutFile != diffFile {
      var off := |mutFile| - |diffFile|;
      var dir := mutFile[..off - 1];
      assert mutFile == dir + [mutFile[off - 1]] + diffFile;
    }
  }

  predicate InRange(m: Mutant, r: LineRange) {
    PathMatch(m.file, r.file) && r.start <= m.line <= r.end
  }

  predicate InSome(m: Mutant, ranges: seq<LineRange>) {
    exists k :: 0 <= k < |ranges| && InRange(m, ranges[k])
  }

  /** The subsequence of the mutants that satisfy a condition. */
  function Keep(ms: seq<Mutant>, wanted: Mutant -> bool): seq<Mutant> {
    if ms == [] then [] else Keep(ms[..|ms| - 1], wanted) + if wanted(ms[|ms| - 1]) then [ms[|ms| - 1]] else []
  }

  method FilterByDiff(ms: seq<Mutant>, ranges: seq<LineRange>) returns (out: seq<Mutant>)
    ensures out == Keep(ms, m => InSome(m, ranges))
  {
    out := [];
    for i := 0 to |ms|
      invariant out == Keep(ms[..i], m => InSome(m, ranges))
    {
      assert ms[..i + 1][..i] == ms[..i];
      var hit := false;
      var k := 0;
      while k < |ranges| && !hit
        invariant k <= |ranges| && (hit ==> InSome(ms[i], ranges))
        invariant !hit ==> forall j :: 0 <= j < k ==> !InRange(ms[i], ranges[j])
      {
        hit := PathMatch(ms[i].file, ranges[k].file) && ms[i].line >= ranges[k].start && ms[i].line <= ranges[k].end;
        k := k + 1;
      }
      if hit {
        out := out + [ms[i]];
      }
    }
    assert ms[..|ms|] == ms;
  }

  lemma {:induction false} KeepSame(ms: seq<Mutant>, p: Mutant -> bool, q: Mutant -> bool)
    requires forall k :: 0 <= k < |ms| ==> p(ms[k]) == q(ms[k])
    ensures Keep(ms, p) == Keep(ms, q)
  {
    if ms != [] { KeepSame(ms[..|ms| - 1], p, q); }
  }

  // ---------------------------------------------------------------- the parser

  predicate HasPrefix(line: string, pre: string) {
    |pre| <= |line| && line[..|pre|] == pre
  }

  /** The count of a hunk header whose `+` is at `plus`: 1 unless a comma comes before a space. */
  function CountAt(line: string, plus: nat): u32 {
    var comma, sp := FindFrom(",", line, plus), FindFrom(" ", line, plus);
    if comma.Some? && (sp.None? || comma.value < sp.value) then ToUnsigned(line[comma.value + 1..]) else 1
  }

  /** The range of a hunk header; none without a `+`, or when no line is left on the new side. */
  function HunkRange(file: string, line: string): seq<LineRange> {
    var plus := Find("+", line);
    if plus.None? then [] else RangeFor(file, ToUnsigned(line[plus.value + 1..]), CountAt(line, plus.value))
  }

  /** Unsigned arithmetic wraps around. */
  function RangeFor(file: string, start: u32, count: u32): seq<LineRange> {
    if count == 0 then [] else [LineRange(file, start, (start + count - 1) % 0x1_0000_0000)]
  }

  function RangesOf(file: string, line: string): seq<LineRange> {
    if HasPrefix(line, "@@ ") then HunkRange(file, line) else []
  }

  function Scan(file: string, lines: seq<string>): seq<LineRange>
    decreases |lines|
  {
    if lines == [] then []
    else if HasPrefix(lines[0], "+++ b/") then Scan(lines[0][6..], lines[1..])
    else RangesOf(file, lines[0]) + Scan(file, lines[1..])
  }

  function ParseDiff(text: string): seq<LineRange> {
    Scan("", Lines(text))
  }

  /** The body of the loop for a hunk header. */
  method HunkOf(file: string, line: string) returns (r: seq<LineRange>)
    ensures r == HunkRange(file, line)
  {
    var plus := Find("+", line);
    if plus.None? {
      return [];
    }
    var start := ToUnsigned(line[plus.value + 1..]);
    var count: u32 := 1;
    var comma := FindFrom(",", line, plus.value);
    var sp := FindFrom(" ", line, plus.value);
    if comma.Some? && (sp.None? || comma.value < sp.value) {
      count := ToUnsigned(line[comma.value + 1..]);
    }
    if count == 0 {
      return [];
    }
    r := [LineRange(file, start, (start + count - 1) % 0x1_0000_0000)];
  }

  function FileOf(file: string, line: string): string {
    if HasPrefix(line, "+++ b/") then line[6..] else file
  }

  lemma ScanLine(file: string, rest: string)
    requires rest != ""
    ensures var line, next := FirstLine(rest), Lines(RestLines(rest));
            Scan(file, Lines(rest)) ==
            (if HasPrefix(line, "+++ b/") then [] else RangesOf(file, line)) + Scan(FileOf(file, line), next)
  {
    LinesStep(rest);
  }

  /** The body of the loop: a file header, a hunk header, or nothing. */
  method ReadLine(file: string, line: string) returns (file': string, r: seq<LineRange>)
    ensures file' == FileOf(file, line)
    ensures r == if HasPrefix(line, "+++ b/") then [] else RangesOf(file, line)
  {
    file', r := file, [];
    if HasPrefix(line, "+++ b/") {
      file' := line[6..];
    } else if HasPrefix(line, "@@ ") {
      r := HunkOf(file, line);
    }
  }

  method ParseGitDiffText(text: string) returns (ranges: seq<LineRange>)
    ensures ranges == ParseDiff(text)
  {
    ranges := [];
    var file, rest := "", text;
    while rest != ""
      invariant ParseDiff(text) == ranges + Scan(file, Lines(rest))
      decreases |rest|
    {
      var file', r := ReadLine(file, FirstLine(rest));
      ScanLine(file, rest);
      Assoc(ranges, r, Scan(file', Lines(RestLines(rest))));
      file, ranges, rest := file', ranges + r, RestLines(rest);
    }
    assert ranges + [] == ranges;
  }

  // ---------------------------------------------------------------- a diff as git prints it

  /** One hunk without context lines. */
  datatype Hunk = Hunk(oldStart: nat, oldCount: nat, newStart: nat, newCount: nat, heading: string, body: seq<string>)

  /** The new side is a path, or absent when the file was deleted. */
  datatype FileDiff = FileDiff(preamble: seq<string>, path: Option<string>, hunks: seq<Hunk>)

  function RangeText(start: nat, count: nat): string {
    Dec(start) + if count == 1 then "" else "," + Dec(count)
  }

  function HeaderOf(h: Hunk): string {
    "@@ -" + RangeText(h.oldStart, h.oldCount) + " +" + RangeText(h.newStart, h.newCount) + " @@" + h.heading
  }

  function HunkLines(h: Hunk): seq<string> {
    [HeaderOf(h)] + h.body
  }

  function AllHunkLines(hs: seq<Hunk>): seq<string> {
    if hs == [] then [] else HunkLines(hs[0]) + AllHunkLines(hs[1..])
  }

  function NewSideLine(path: Option<string>): string {
    if path.None? then "+++ /dev/null" else "+++ b/" + path.value
  }

  function FileLines(f: FileDiff): seq<string> {
    f.preamble + [NewSideLine(f.path)] + AllHunkLines(f.hunks)
  }

  function DiffLines(fs: seq<FileDiff>): seq<string> {
    if fs == [] then [] else FileLines(fs[0]) + DiffLines(fs[1..])
  }

  /** The text of the whole diff. */
  function Render(fs: seq<FileDiff>): string {
    JoinLines(DiffLines(fs))
  }

  /** A line that the parser has no use for. */
  predicate Inert(line: string) {
    OneLine(line) && !HasPrefix(line, "+++ b/") && !HasPrefix(line, "@@ ")
  }

  /** A removed or added line; its text may look like a file header. */
  predicate BodyLine(line: string) {
    OneLine(line) && !HasPrefix(line, "@@ ")
  }

  predicate HunkOk(h: Hunk) {
    && h.newStart + h.newCount < 0x1_0000_0000 && (h.newCount > 0 ==> h.newStart > 0)
    && OneLine(h.heading)
    && forall k :: 0 <= k < |h.body| ==> BodyLine(h.body[k])
  }

  /** A deleted file has no line on the new side. */
  predicate FileOk(f: FileDiff) {
    && (forall k :: 0 <= k < |f.preamble| ==> Inert(f.preamble[k]))
    && (f.path.Some? ==> OneLine(f.path.value))
    && (forall k :: 0 <= k < |f.hunks| ==> HunkOk(f.hunks[k]) && (f.path.None? ==> f.hunks[k].newCount == 0))
  }

  predicate DiffOk(fs: seq<FileDiff>) {
    forall k :: 0 <= k < |fs| ==> FileOk(fs[k])
  }

  /** The lines that a hunk leaves on the new side. */
  function NewRange(path: string, h: Hunk): seq<LineRange>
    requires HunkOk(h)
  {
    if h.newCount == 0 then [] else [LineRange(path, h.newStart, h.newStart + h.newCount - 1)]
  }

  /** What the hunks of a file are about. */
  function HunkRanges(path: string, hs: seq<Hunk>): seq<LineRange>
    requires forall k :: 0 <= k < |hs| ==> HunkOk(hs[k])
  {
    if hs == [] then [] else NewRange(path, hs[0]) + HunkRanges(path, hs[1..])
  }

  function RangesOfFile(f: FileDiff): seq<LineRange>
    requires FileOk(f)
  {
    if f.path.None? then [] else HunkRanges(f.path.value, f.hunks)
  }

  function DiffRanges(fs: seq<FileDiff>): seq<LineRange>
    requires DiffOk(fs)
  {
    if fs == [] then [] else RangesOfFile(fs[0]) + DiffRanges(fs[1..])
  }

  // ---------------------------------------------------------------- the file a hunk is charged to

  /** The current file behind the lines of a hunk: the last of them that looks like a file
      header decides. */
  function AfterBody(file: string, body: seq<string>): string
    decreases |body|
  {
    if body == [] then file else AfterBody(FileOf(file, body[0]), body[1..])
  }

  function AfterHunks(file: string, hs: seq<Hunk>): string
    decreases |hs|
  {
    if hs == [] then file else AfterHunks(AfterBody(file, hs[0].body), hs[1..])
  }

  /** The current file behind a file's header: its path, or still the previous one. */
  function FileAfter(file: string, f: FileDiff): string {
    if f.path.None? then file else f.path.value
  }

  /** The ranges of the hunks, each charged to the file that is current at its header. */
  function ChargedHunks(file: string, hs: seq<Hunk>): seq<LineRange>
    requires forall k :: 0 <= k < |hs| ==> HunkOk(hs[k])
    decreases |hs|
  {
    if hs == [] then [] else NewRange(file, hs[0]) + ChargedHunks(AfterBody(file, hs[0].body), hs[1..])
  }

  function ChargedDiff(file: string, fs: seq<FileDiff>): seq<LineRange>
    requires DiffOk(fs)
    decreases |fs|
  {
    if fs == [] then [] else
      ChargedHunks(FileAfter(file, fs[0]), fs[0].hunks)
      + ChargedDiff(AfterHunks(FileAfter(file, fs[0]), fs[0].hunks), fs[1..])
  }

  /** Every hunk that leaves lines on the new side is read while its own file is current. */
  predicate HonestHunks(path: string, file: string, hs: seq<Hunk>)
    decreases |hs|
  {
    hs == [] || ((hs[0].newCount > 0 ==> file == path) && HonestHunks(path, AfterBody(file, hs[0].body), hs[1..]))
  }

  predicate Honest(fs: seq<FileDiff>) {
    forall k :: 0 <= k < |fs| && fs[k].path.Some? ==> HonestHunks(fs[k].path.value, fs[k].path.value, fs[k].hunks)
  }

  // ---------------------------------------------------------------- one hunk header

  lemma FindChar(c: char, x: string, rest: string, from: nat)
    requires from <= |x| && forall k :: from <= k < |x| ==> x[k] != c
    ensures FindFrom([c], x + [c] + rest, from) == Some(|x|)
  {
    var text := x + [c] + rest;
    assert MatchAt([c], text, |x|);
    forall i: nat | from <= i < |x|
      ensures !MatchAt([c], text, i)
    {
      assert text[i..i + 1] == [x[i]];
    }
  }

  lemma DecChars(n: nat, c: char)
    requires !IsDigit(c)
    ensures c !in Dec(n)
  {
  }

  lemma RangeChars(start: nat, count: nat)
    ensures '+' !in RangeText(start, count) && ' ' !in RangeText(start, count)
    ensures !IsDigit('+') && OneLine(RangeText(start, count))
  {
    DecChars(start, '+');
    DecChars(start, ' ');
    DecChars(start, '\n');
    DecChars(count, '+');
    DecChars(count, ' ');
    DecChars(count, '\n');
  }

  lemma PlusAt(front: string, rest: string)
    requires '+' !in front
    ensures Find("+", front + "+" + rest) == Some(|front|) && (front + "+" + rest)[|front| + 1..] == rest
  {
    FindChar('+', front, rest, 0);
  }

  lemma HeaderSplit(h: Hunk)
    ensures HeaderOf(h) == ("@@ -" + RangeText(h.oldStart, h.oldCount) + " ") + "+"
              + (RangeText(h.newStart, h.newCount) + (" @@" + h.heading))
  {
    var a, b := RangeText(h.oldStart, h.oldCount), RangeText(h.newStart, h.newCount);
    HeaderPieces(a, b, h.heading);
  }

  lemma HeaderPieces(a: string, b: string, heading: string)
    ensures "@@ -" + a + " +" + b + " @@" + heading == ("@@ -" + a + " ") + "+" + (b + (" @@" + heading))
  {
  }

  /** Reading the header of a hunk. */
  lemma HeaderRead(file: string, h: Hunk)
    requires HunkOk(h)
    ensures HunkRange(file, HeaderOf(h)) == NewRange(file, h)
  {
    var front, tail := "@@ -" + RangeText(h.oldStart, h.oldCount) + " ", " @@" + h.heading;
    RangeChars(h.oldStart, h.oldCount);
    HeaderSplit(h);
    RangeRead(file, front, h, tail);
  }

  lemma RangeRead(file: string, front: string, h: Hunk, tail: string)
    requires HunkOk(h) && '+' !in front && tail != "" && tail[0] == ' '
    ensures HunkRange(file, front + "+" + (RangeText(h.newStart, h.newCount) + tail)) == NewRange(file, h)
  {
    var rest := RangeText(h.newStart, h.newCount) + tail;
    PlusAt(front, rest);
    StartRead(h.newStart, h.newCount, tail);
    CountRead(front, h.newStart, h.newCount, tail);
    assert HunkRange(file, front + "+" + rest) == RangeFor(file, h.newStart, h.newCount);
    NoWrap(file, h);
  }

  lemma NoWrap(file: string, h: Hunk)
    requires HunkOk(h)
    ensures RangeFor(file, h.newStart, h.newCount) == NewRange(file, h)
  {
  }

  lemma StartRead(start: u32, count: nat, tail: string)
    requires tail != "" && tail[0] == ' '
    ensures ToUnsigned(RangeText(start, count) + tail) == start
  {
    var more := (if count == 1 then "" else "," + Dec(count)) + tail;
    assert RangeText(start, count) + tail == Dec(start) + more;
    ParseDec(start, more);
  }

  /** A count is read exactly when one is written: the comma counts only before the space. */
  lemma CountRead(front: string, start: nat, count: u32, tail: string)
    requires tail != "" && tail[0] == ' '
    ensures CountAt(front + "+" + (RangeText(start, count) + tail), |front|) == count
  {
    DecChars(start, ',');
    DecChars(start, ' ');
    DecChars(count, ' ');
    if count == 1 {
      assert RangeText(start, count) == Dec(start);
      NoComma(front, Dec(start), tail);
    } else {
      assert RangeText(start, count) == Dec(start) + "," + Dec(count);
      CommaAt(front, Dec(start), Dec(count), tail);
      ParseDec(count, tail);
    }
  }

  lemma NoComma(front: string, d: string, tail: string)
    requires ',' !in d && ' ' !in d && tail != "" && tail[0] == ' '
    ensures CountAt(front + "+" + (d + tail), |front|) == 1
  {
    var line, x := front + "+" + (d + tail), front + "+" + d;
    assert line == x + " " + tail[1..];
    FindChar(' ', x, tail[1..], |front|);
    var comma := FindFrom(",", line, |front|);
    if comma.Some? { CharAt(',', line, comma.value); }
  }

  lemma CharAt(c: char, line: string, i: nat)
    requires MatchAt([c], line, i)
    ensures line[i] == c
  {
    assert line[i..i + 1][0] == line[i];
  }

  lemma CommaAt(front: string, d: string, e: string, tail: string)
    requires ',' !in d && ' ' !in d && ' ' !in e && tail != "" && tail[0] == ' '
    ensures CountAt(front + "+" + (d + "," + e + tail), |front|) == ToUnsigned(e + tail)
  {
    var line, x, y := front + "+" + (d + "," + e + tail), front + "+" + d + "," + e, front + "+" + d;
    assert line == x + " " + tail[1..];
    FindChar(' ', x, tail[1..], |front|);
    assert line == y + "," + (e + tail);
    FindChar(',', y, e + tail, |front|);
    assert line[|y| + 1..] == e + tail;
  }

  // ---------------------------------------------------------------- the whole diff

  lemma {:induction false} ScanInert(file: string, a: seq<string>, b: seq<string>)
    requires forall k :: 0 <= k < |a| ==> Inert(a[k])
    ensures Scan(file, a + b) == Scan(file, b)
  {
    if a == [] {
      assert a + b == b;
    } else {
      assert (a + b)[1..] == a[1..] + b;
      ScanInert(file, a[1..], b);
    }
  }

  lemma PrefixChars(line: string, pre: string)
    requires HasPrefix(line, pre)
    ensures forall k :: 0 <= k < |pre| ==> line[k] == pre[k]
  {
    assert forall k :: 0 <= k < |pre| ==> line[..|pre|][k] == line[k];
  }

  lemma HeaderPrefix(h: Hunk)
    ensures HasPrefix(HeaderOf(h), "@@ ") && !HasPrefix(HeaderOf(h), "+++ b/")
  {
    var line := HeaderOf(h);
    assert line[0] == '@' && line[1] == '@' && line[2] == ' ';
    assert line[..3] == "@@ ";
    if HasPrefix(line, "+++ b/") { PrefixChars(line, "+++ b/"); }
  }

  lemma NewSidePrefix(path: Option<string>)
    ensures var line := NewSideLine(path);
            && !HasPrefix(line, "@@ ") && (HasPrefix(line, "+++ b/") <==> path.Some?)
            && (path.Some? ==> line[6..] == path.value)
  {
    var line := NewSideLine(path);
    assert line[0] == '+' && (path.None? ==> line[4] == '/');
    if HasPrefix(line, "@@ ") { PrefixChars(line, "@@ "); }
    if path.Some? {
      assert line[..6] == "+++ b/";
    } else if HasPrefix(line, "+++ b/") {
      PrefixChars(line, "+++ b/");
    }
  }

  lemma {:induction false} ScanBody(file: string, body: seq<string>, rest: seq<string>)
    requires forall k :: 0 <= k < |body| ==> BodyLine(body[k])
    ensures Scan(file, body + rest) == Scan(AfterBody(file, body), rest)
    decreases |body|
  {
    if body == [] {
      assert body + rest == rest;
    } else {
      assert (body + rest)[1..] == body[1..] + rest;
      ScanBody(FileOf(file, body[0]), body[1..], rest);
    }
  }

  lemma ScanHunk(file: string, h: Hunk, rest: seq<string>)
    requires HunkOk(h)
    ensures Scan(file, HunkLines(h) + rest) == NewRange(file, h) + Scan(AfterBody(file, h.body), rest)
  {
    var lines := HunkLines(h) + rest;
    assert lines[0] == HeaderOf(h) && lines[1..] == h.body + rest;
    HeaderPrefix(h);
    HeaderRead(file, h);
    ScanBody(file, h.body, rest);
  }

  lemma {:induction false} ScanHunks(file: string, hs: seq<Hunk>, rest: seq<string>)
    requires forall k :: 0 <= k < |hs| ==> HunkOk(hs[k])
    ensures Scan(file, AllHunkLines(hs) + rest) == ChargedHunks(file, hs) + Scan(AfterHunks(file, hs), rest)
    decreases |hs|
  {
    if hs == [] {
      assert AllHunkLines(hs) + rest == rest;
    } else {
      var more, next := AllHunkLines(hs[1..]) + rest, AfterBody(file, hs[0].body);
      Assoc(HunkLines(hs[0]), AllHunkLines(hs[1..]), rest);
      ScanHunk(file, hs[0], more);
      ScanHunks(next, hs[1..], rest);
      Assoc(NewRange(file, hs[0]), ChargedHunks(next, hs[1..]), Scan(AfterHunks(file, hs), rest));
    }
  }

  lemma ScanFile(file: string, f: FileDiff, rest: seq<string>)
    requires FileOk(f)
    ensures var now := FileAfter(file, f);
            Scan(file, FileLines(f) + rest) == ChargedHunks(now, f.hunks) + Scan(AfterHunks(now, f.hunks), rest)
  {
    var hunks := AllHunkLines(f.hunks) + rest;
    var lines := [NewSideLine(f.path)] + hunks;
    assert FileLines(f) + rest == f.preamble + lines;
    ScanInert(file, f.preamble, lines);
    assert lines[1..] == hunks;
    NewSidePrefix(f.path);
    ScanHunks(FileAfter(file, f), f.hunks, rest);
  }

  lemma {:induction false} ScanDiff(file: string, fs: seq<FileDiff>)
    requires DiffOk(fs)
    ensures Scan(file, DiffLines(fs)) == ChargedDiff(file, fs)
    decreases |fs|
  {
    if fs != [] {
      ScanFile(file, fs[0], DiffLines(fs[1..]));
      ScanDiff(AfterHunks(FileAfter(file, fs[0]), fs[0].hunks), fs[1..]);
    }
  }

  lemma HeaderOneLine(h: Hunk)
    requires HunkOk(h)
    ensures OneLine(HeaderOf(h))
  {
    RangeChars(h.oldStart, h.oldCount);
    RangeChars(h.newStart, h.newCount);
  }

  lemma {:induction false} HunksOneLine(hs: seq<Hunk>, k: nat)
    requires (forall j :: 0 <= j < |hs| ==> HunkOk(hs[j])) && k < |AllHunkLines(hs)|
    ensures OneLine(AllHunkLines(hs)[k])
  {
    var n := |HunkLines(hs[0])|;
    if k == 0 {
      HeaderOneLine(hs[0]);
    } else if k >= n {
      HunksOneLine(hs[1..], k - n);
    } else {
      assert AllHunkLines(hs)[k] == hs[0].body[k - 1];
    }
  }

  lemma {:induction false} DiffOneLine(fs: seq<FileDiff>, k: nat)
    requires DiffOk(fs) && k < |DiffLines(fs)|
    ensures OneLine(DiffLines(fs)[k])
  {
    var n, p := |FileLines(fs[0])|, |fs[0].preamble|;
    if k >= n {
      DiffOneLine(fs[1..], k - n);
    } else if k < p {
      assert DiffLines(fs)[k] == fs[0].preamble[k];
    } else if k > p {
      HunksOneLine(fs[0].hunks, k - p - 1);
    }
  }

  /** What the parser makes of every printed diff: each hunk is charged to the file that is
      current when its header is read. */
  lemma ParseRendered(fs: seq<FileDiff>)
    requires DiffOk(fs)
    ensures ParseDiff(Render(fs)) == ChargedDiff("", fs)
  {
    forall k | 0 <= k < |DiffLines(fs)|
      ensures OneLine(DiffLines(fs)[k])
    {
      DiffOneLine(fs, k);
    }
    LinesOfJoin(DiffLines(fs));
    ScanDiff("", fs);
  }

  lemma {:induction false} HunksExact(path: string, file: string, hs: seq<Hunk>)
    requires forall k :: 0 <= k < |hs| ==> HunkOk(hs[k])
    ensures |ChargedHunks(file, hs)| == |HunkRanges(path, hs)|
    ensures ChargedHunks(file, hs) == HunkRanges(path, hs) <==> HonestHunks(path, file, hs)
    decreases |hs|
  {
    if hs != [] {
      var next := AfterBody(file, hs[0].body);
      HunksExact(path, next, hs[1..]);
      SameParts(NewRange(file, hs[0]), ChargedHunks(next, hs[1..]), NewRange(path, hs[0]), HunkRanges(path, hs[1..]));
    }
  }

  lemma SameParts<T>(a: seq<T>, b: seq<T>, c: seq<T>, d: seq<T>)
    requires |a| == |c|
    ensures a + b == c + d <==> a == c && b == d
  {
    assert (a + b)[..|a|] == a && (a + b)[|a|..] == b;
    assert (c + d)[..|c|] == c && (c + d)[|c|..] == d;
  }

  lemma {:induction false} NoRanges(file: string, hs: seq<Hunk>)
    requires forall k :: 0 <= k < |hs| ==> HunkOk(hs[k]) && hs[k].newCount == 0
    ensures ChargedHunks(file, hs) == []
    decreases |hs|
  {
    if hs != [] { NoRanges(AfterBody(file, hs[0].body), hs[1..]); }
  }

  lemma FileExact(file: string, f: FileDiff)
    requires FileOk(f)
    ensures var charged, meant := ChargedHunks(FileAfter(file, f), f.hunks), RangesOfFile(f);
            && |charged| == |meant|
            && (charged == meant <==> (f.path.Some? ==> HonestHunks(f.path.value, f.path.value, f.hunks)))
  {
    if f.path.None? {
      NoRanges(file, f.hunks);
    } else {
      HunksExact(f.path.value, f.path.value, f.hunks);
    }
  }

  lemma {:induction false} ChargedExact(file: string, fs: seq<FileDiff>)
    requires DiffOk(fs)
    ensures |ChargedDiff(file, fs)| == |DiffRanges(fs)|
    ensures ChargedDiff(file, fs) == DiffRanges(fs) <==> Honest(fs)
    decreases |fs|
  {
    if fs != [] {
      var f, now := fs[0], FileAfter(file, fs[0]);
      FileExact(file, f);
      ChargedExact(AfterHunks(now, f.hunks), fs[1..]);
      SameParts(ChargedHunks(now, f.hunks), ChargedDiff(AfterHunks(now, f.hunks), fs[1..]), RangesOfFile(f),
                DiffRanges(fs[1..]));
      HonestCons(fs);
    }
  }

  lemma HonestCons(fs: seq<FileDiff>)
    requires fs != []
    ensures Honest(fs) <==>
            (fs[0].path.Some? ==> HonestHunks(fs[0].path.value, fs[0].path.value, fs[0].hunks)) && Honest(fs[1..])
  {
    if Honest(fs) {
      assert forall k :: 0 <= k < |fs[1..]| ==> fs[1..][k] == fs[k + 1];
    } else {
      assert forall k :: 1 <= k < |fs| ==> fs[k] == fs[1..][k - 1];
    }
  }

  /** The parser reads the new-side ranges of a printed diff exactly when no body line moves a
      hunk with new lines to another file. */
  lemma ParseExact(fs: seq<FileDiff>)
    requires DiffOk(fs)
    ensures ParseDiff(Render(fs)) == DiffRanges(fs) <==> Honest(fs)
  {
    ParseRendered(fs);
    ChargedExact("", fs);
  }

  // ---------------------------------------------------------------- meaning of the filter

  predicate OnHunk(line: u32, h: Hunk) {
    h.newStart <= line < h.newStart + h.newCount
  }

  /** The mutant is on a new-side line of a file of the diff. */
  predicate OnDiff(m: Mutant, fs: seq<FileDiff>) {
    exists k, j :: 0 <= k < |fs| && 0 <= j < |fs[k].hunks|
      && fs[k].path.Some? && PathMatch(m.file, fs[k].path.value) && OnHunk(m.line, fs[k].hunks[j])
  }

  predicate OnHunks(line: u32, hs: seq<Hunk>) {
    exists j :: 0 <= j < |hs| && OnHunk(line, hs[j])
  }

  lemma InSomeConcat(m: Mutant, a: seq<LineRange>, b: seq<LineRange>)
    ensures InSome(m, a + b) <==> InSome(m, a) || InSome(m, b)
  {
    if InSome(m, a) {
      var k :| 0 <= k < |a| && InRange(m, a[k]);
      assert (a + b)[k] == a[k];
    }
    if InSome(m, b) {
      var k :| 0 <= k < |b| && InRange(m, b[k]);
      assert (a + b)[|a| + k] == b[k];
    }
  }

  lemma {:induction false} InHunkRanges(m: Mutant, path: string, hs: seq<Hunk>)
    requires forall k :: 0 <= k < |hs| ==> HunkOk(hs[k])
    ensures InSome(m, HunkRanges(path, hs)) <==> PathMatch(m.file, path) && OnHunks(m.line, hs)
  {
    if hs != [] {
      InHunkRanges(m, path, hs[1..]);
      var first := NewRange(path, hs[0]);
      InSomeConcat(m, first, HunkRanges(path, hs[1..]));
      assert OnHunks(m.line, hs) <==> OnHunk(m.line, hs[0]) || OnHunks(m.line, hs[1..]);
      if hs[0].newCount > 0 { assert InSome(m, first) <==> InRange(m, first[0]); }
    }
  }

  lemma {:induction false} InDiffRanges(m: Mutant, fs: seq<FileDiff>)
    requires DiffOk(fs)
    ensures InSome(m, DiffRanges(fs)) <==> OnDiff(m, fs)
  {
    if fs != [] {
      InDiffRanges(m, fs[1..]);
      var f := fs[0];
      InSomeConcat(m, RangesOfFile(f), DiffRanges(fs[1..]));
      if f.path.Some? { InHunkRanges(m, f.path.value, f.hunks); }
      OnFirst(m, fs);
    }
  }

  lemma OnFirst(m: Mutant, fs: seq<FileDiff>)
    requires fs != []
    ensures OnDiff(m, fs) <==>
            (fs[0].path.Some? && PathMatch(m.file, fs[0].path.value) && OnHunks(m.line, fs[0].hunks))
            || OnDiff(m, fs[1..])
  {
    if OnDiff(m, fs[1..]) {
      var k, j :| 0 <= k < |fs[1..]| && 0 <= j < |fs[1..][k].hunks|
        && fs[1..][k].path.Some? && PathMatch(m.file, fs[1..][k].path.value) && OnHunk(m.line, fs[1..][k].hunks[j]);
      assert fs[k + 1] == fs[1..][k];
    }
  }

  /** What the filter keeps of every printed diff; when no body line moves a hunk with new lines
      to another file, these are, in order, the mutants on new-side lines of the diff. */
  lemma FilterMeans(ms: seq<Mutant>, fs: seq<FileDiff>)
    requires DiffOk(fs)
    ensures Keep(ms, m => InSome(m, ParseDiff(Render(fs)))) == Keep(ms, m => InSome(m, ChargedDiff("", fs)))
    ensures Honest(fs) ==> Keep(ms, m => InSome(m, ParseDiff(Render(fs)))) == Keep(ms, m => OnDiff(m, fs))
  {
    ParseRendered(fs);
    KeepSame(ms, m => InSome(m, ParseDiff(Render(fs))), m => InSome(m, ChargedDiff("", fs)));
    if Honest(fs) {
      ParseExact(fs);
      forall k | 0 <= k < |ms|
        ensures InSome(ms[k], ParseDiff(Render(fs))) == OnDiff(ms[k], fs)
      {
        InDiffRanges(ms[k], fs);
      }
      KeepSame(ms, m => InSome(m, ParseDiff(Render(fs))), m => OnDiff(m, fs));
    }
  }

  // ---------------------------------------------------------------- a diff that is misread

  /** A file with two hunks: the first adds the line `++ b/b.c`, the second line 6. */
  const FORGING := FileDiff([], Some("a.c"), [Hunk(0, 0, 1, 1, "", ["+++ b/b.c"]), Hunk(4, 0, 6, 1, "", ["+x"])])

  lemma ForgingCharged()
    ensures DiffOk([FORGING]) && ChargedDiff("", [FORGING]) == [LineRange("a.c", 1, 1), LineRange("b.c", 6, 6)]
  {
    var h, g := FORGING.hunks[0], FORGING.hunks[1];
    var line := "+++ b/b.c";
    assert line[..6] == "+++ b/" && line[6..] == "b.c";
    assert h.body[1..] == [];
    assert AfterBody("a.c", h.body) == "b.c";
    assert "+++ b/b.c"[0] == '+' && "+x"[0] == '+';
    assert FORGING.hunks[1..] == [g] && [g][1..] == [];
    assert ChargedHunks("b.c", [g]) == [LineRange("b.c", 6, 6)];
    assert [FORGING][1..] == [];
  }

  /** The filter drops the mutant on the added line 6 of `a.c` and keeps one in `b.c`, a file
      that the diff does not touch. */
  lemma AddedLineForgesHeader(ours: Mutant, theirs: Mutant)
    requires ours.file == "a.c" && ours.line == 6 && theirs.file == "b.c" && theirs.line == 6
    ensures DiffOk([FORGING]) && !Honest([FORGING])
    ensures Keep([ours, theirs], m => OnDiff(m, [FORGING])) == [ours]
    ensures Keep([ours, theirs], m => InSome(m, ParseDiff(Render([FORGING])))) == [theirs]
  {
    ForgingCharged();
    ForgingMeant();
    ParseRendered([FORGING]);
    ParseExact([FORGING]);
    PathsApart();
    InTwo(ours, LineRange("a.c", 1, 1), LineRange("b.c", 6, 6));
    InTwo(theirs, LineRange("a.c", 1, 1), LineRange("b.c", 6, 6));
    InTwo(ours, LineRange("a.c", 1, 1), LineRange("a.c", 6, 6));
    InTwo(theirs, LineRange("a.c", 1, 1), LineRange("a.c", 6, 6));
    InDiffRanges(ours, [FORGING]);
    InDiffRanges(theirs, [FORGING]);
    KeepTwo(ours, theirs, m => OnDiff(m, [FORGING]));
    KeepTwo(ours, theirs, m => InSome(m, ParseDiff(Render([FORGING]))));
  }

  lemma PathsApart()
    ensures !PathMatch("a.c", "b.c") && !PathMatch("b.c", "a.c") && PathMatch("a.c", "a.c") && PathMatch("b.c", "b.c")
    ensures [LineRange("a.c", 1, 1), LineRange("b.c", 6, 6)] != [LineRange("a.c", 1, 1), LineRange("a.c", 6, 6)]
  {
    assert "a.c"[0] != "b.c"[0];
    var a, b := [LineRange("a.c", 1, 1), LineRange("b.c", 6, 6)], [LineRange("a.c", 1, 1), LineRange("a.c", 6, 6)];
    assert a[1].file != b[1].file;
  }

  lemma InTwo(m: Mutant, r: LineRange, s: LineRange)
    ensures InSome(m, [r, s]) <==> InRange(m, r) || InRange(m, s)
  {
    assert [r, s][0] == r && [r, s][1] == s;
  }

  lemma ForgingMeant()
    requires DiffOk([FORGING])
    ensures DiffRanges([FORGING]) == [LineRange("a.c", 1, 1), LineRange("a.c", 6, 6)]
  {
    var g := FORGING.hunks[1];
    assert FORGING.hunks[1..] == [g] && [g][1..] == [];
    assert HunkRanges("a.c", [g]) == [LineRange("a.c", 6, 6)];
    assert [FORGING][1..] == [];
  }

  lemma KeepTwo(a: Mutant, b: Mutant, wanted: Mutant -> bool)
    ensures Keep([a, b], wanted) == (if wanted(a) then [a] else []) + (if wanted(b) then [b] else [])
  {
    assert [a, b][..1] == [a] && [a][..0] == [];
    assert Keep([a], wanted) == Keep([a][..0], wanted) + if wanted(a) then [a] else [];
  }
}

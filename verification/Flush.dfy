/** Flushing the hit table to the log at exit, while other threads may still record, and
    loading the log of all the processes of a suite back into a set. */
module Flush {
  import opened Scalars
  import opened Seqs
  import opened Text
  import opened HitTable
  import opened Runtime

  // ---------------------------------------------------------------- the scan

  /** A scan in progress: the next slot to load, the ids written, and, as history, the slots
      they came from and the table at the start. */
  datatype Scan = Scan(sys: Sys, next: nat, out: seq<u32>, from: seq<nat>, start: seq<u32>)

  datatype Move = Other(e: Event) | Load

  predicate CanMove(s: Scan, m: Move)
    requires |s.sys.slots| == HIT_CAP
  {
    match m
    case Other(e) => Enabled(s.sys, e)
    case Load => s.next < HIT_CAP
  }

  /** A recorder does one atomic operation, or the scan loads one slot. */
  function MoveOn(h: HashFn, s: Scan, m: Move): Scan
    requires |s.sys.slots| == HIT_CAP && CanMove(s, m)
  {
    match m
    case Other(e) => s.(sys := Apply(h, s.sys, e))
    case Load =>
      var id := s.sys.slots[s.next];
      if id != 0 then s.(next := s.next + 1, out := s.out + [id], from := s.from + [s.next]) else s.(next := s.next + 1)
  }

  predicate Possible(h: HashFn, s: Scan, ms: seq<Move>)
    requires |s.sys.slots| == HIT_CAP
    decreases |ms|
  {
    ms == [] || (CanMove(s, ms[0]) && Possible(h, MoveOn(h, s, ms[0]), ms[1..]))
  }

  function Scanned(h: HashFn, s: Scan, ms: seq<Move>): (r: Scan)
    requires |s.sys.slots| == HIT_CAP && Possible(h, s, ms)
    ensures |r.sys.slots| == HIT_CAP
    decreases |ms|
  {
    if ms == [] then s else Scanned(h, MoveOn(h, s, ms[0]), ms[1..])
  }

  /** Each id was loaded from its own slot, and nothing recorded before the start was missed. */
  ghost predicate ScanOk(h: HashFn, s: Scan) {
    && Inv(h, s.sys) && Grown(s.start, s.sys.slots) && s.next <= HIT_CAP && |s.out| == |s.from|
    && (forall k :: 0 <= k < |s.out| ==> s.from[k] < s.next && s.sys.slots[s.from[k]] == s.out[k] != 0)
    && (forall j, k :: 0 <= j < k < |s.from| ==> s.from[j] != s.from[k])
    && (forall i :: 0 <= i < s.next && s.start[i] != 0 ==> s.start[i] in s.out)
  }

  lemma MoveKeeps(h: HashFn, s: Scan, m: Move)
    requires ScanOk(h, s) && CanMove(s, m)
    ensures ScanOk(h, MoveOn(h, s, m))
  {
    match m
    case Other(e) =>
      StepKeeps(h, s.sys, e);
      StepGrows(h, s.sys, e);
    case Load =>
  }

  lemma StepGrows(h: HashFn, s: Sys, e: Event)
    requires |s.slots| == HIT_CAP && Enabled(s, e)
    ensures Grown(s.slots, Apply(h, s, e).slots)
  {
  }

  lemma {:induction false} ScanKeeps(h: HashFn, s: Scan, ms: seq<Move>)
    requires ScanOk(h, s) && Possible(h, s, ms)
    ensures ScanOk(h, Scanned(h, s, ms)) && Scanned(h, s, ms).start == s.start
    decreases |ms|
  {
    if ms != [] {
      MoveKeeps(h, s, ms[0]);
      ScanKeeps(h, MoveOn(h, s, ms[0]), ms[1..]);
    }
  }

  /** A completed flush writes no id twice, every id recorded before it began, and only ids
      that are in the table when it ends. */
  lemma FlushSnapshot(h: HashFn, s: Sys, ms: seq<Move>)
    requires Inv(h, s) && Possible(h, Scan(s, 0, [], [], s.slots), ms)
    ensures var r := Scanned(h, Scan(s, 0, [], [], s.slots), ms);
            && (forall j, k :: 0 <= j < k < |r.out| ==> r.out[j] != r.out[k])
            && (forall k :: 0 <= k < |r.out| ==> r.out[k] != 0 && r.out[k] in r.sys.slots)
            && (r.next == HIT_CAP ==> forall id :: id in s.slots && id != 0 ==> id in r.out)
  {
    ScanKeeps(h, Scan(s, 0, [], [], s.slots), ms);
    var r := Scanned(h, Scan(s, 0, [], [], s.slots), ms);
    forall j, k | 0 <= j < k < |r.out|
      ensures r.out[j] != r.out[k]
    {
      NoDuplicates(h, r.sys.slots, r.from[j], r.from[k]);
    }
  }

  // ---------------------------------------------------------------- the text of a flush

  function LogText(ids: seq<u32>): string {
    if ids == [] then "" else Dec(ids[0]) + "\n" + LogText(ids[1..])
  }

  /** The ids in the first `n` slots, in slot order. */
  function Occupied(slots: seq<u32>, n: nat): seq<u32>
    requires n <= |slots|
  {
    if n == 0 then [] else Occupied(slots, n - 1) + if slots[n - 1] != 0 then [slots[n - 1]] else []
  }

  lemma {:induction false} LogTextMore(ids: seq<u32>, id: u32)
    ensures LogText(ids + [id]) == LogText(ids) + Dec(id) + "\n"
  {
    if ids == [] {
      assert [id][1..] == [];
    } else {
      assert (ids + [id])[1..] == ids[1..] + [id];
      LogTextMore(ids[1..], id);
      Assoc(Dec(ids[0]) + "\n", LogText(ids[1..]), Dec(id));
      Assoc(Dec(ids[0]) + "\n", LogText(ids[1..]) + Dec(id), "\n");
    }
  }

  /** `mulation_flush_hits` without interference. */
  method FlushHits(p: Process) returns (text: string)
    requires p.Valid()
    ensures text == if p.logging then LogText(Occupied(p.slots[..], HIT_CAP)) else ""
  {
    text := "";
    if !p.logging {
      return;
    }
    for i := 0 to HIT_CAP
      invariant text == LogText(Occupied(p.slots[..], i))
    {
      var id := p.slots[i];
      ghost var before := Occupied(p.slots[..], i);
      assert before + [] == before;
      if id != 0 {
        LogTextMore(before, id);
        text := text + Dec(id) + "\n";
      }
    }
  }

  lemma {:induction false} OccupiedMember(slots: seq<u32>, n: nat, id: u32)
    requires n <= |slots|
    ensures id in Occupied(slots, n) <==> id != 0 && id in slots[..n]
  {
    if n > 0 {
      OccupiedMember(slots, n - 1, id);
      assert slots[..n] == slots[..n - 1] + [slots[n - 1]];
    }
  }

  // ---------------------------------------------------------------- loading the log

  function IdsOfLines(lines: seq<string>): set<u32> {
    if lines == [] then {} else IdsOfLines(lines[..|lines| - 1]) + LineIds(lines[|lines| - 1])
  }

  function LineIds(line: string): set<u32> {
    if line == "" then {} else {ToUnsigned(line)}
  }

  lemma {:induction false} IdsOfLinesConcat(a: seq<string>, b: seq<string>)
    ensures IdsOfLines(a + b) == IdsOfLines(a) + IdsOfLines(b)
    decreases |b|
  {
    if b == [] {
      assert a + b == a;
    } else {
      assert (a + b)[..|a + b| - 1] == a + b[..|b| - 1];
      IdsOfLinesConcat(a, b[..|b| - 1]);
    }
  }

  /** `load_hitlog` */
  method LoadHitlog(text: string) returns (ids: set<u32>)
    ensures ids == IdsOfLines(Lines(text))
  {
    ids := {};
    var rest := text;
    ghost var seen := [];
    while rest != ""
      invariant Lines(text) == seen + Lines(rest) && ids == IdsOfLines(seen)
      decreases |rest|
    {
      var line := FirstLine(rest);
      LinesStep(rest);
      Assoc(seen, [line], Lines(RestLines(rest)));
      IdsMore(seen, line);
      rest, seen := RestLines(rest), seen + [line];
      if line != "" {
        ids := ids + {ToUnsigned(line)};
      }
    }
    assert seen + [] == seen;
  }

  lemma IdsMore(seen: seq<string>, line: string)
    ensures IdsOfLines(seen + [line]) == IdsOfLines(seen) + LineIds(line)
  {
    assert (seen + [line])[..|seen|] == seen;
  }

  lemma OneLine(id: u32, rest: string)
    ensures IdsOfLines(Lines(Dec(id) + "\n" + rest)) == {id} + IdsOfLines(Lines(rest))
  {
    var line := Dec(id);
    assert '\n' !in line;
    LinesCons(line, rest);
    IdsOfLinesConcat([line], Lines(rest));
    assert [line][..0] == [];
    ParseDec(id, "");
    assert line + "" == line;
  }

  lemma FirstAndRest(ids: seq<u32>)
    requires ids != []
    ensures (set id | id in ids) == {ids[0]} + set id | id in ids[1..]
  {
    assert ids == [ids[0]] + ids[1..];
  }

  lemma {:induction false} LogLines(ids: seq<u32>)
    ensures EndsLine(LogText(ids)) && IdsOfLines(Lines(LogText(ids))) == set id | id in ids
  {
    if ids != [] {
      LogLines(ids[1..]);
      OneLine(ids[0], LogText(ids[1..]));
      FirstAndRest(ids);
    }
  }

  function Concat(texts: seq<string>): string {
    if texts == [] then "" else texts[0] + Concat(texts[1..])
  }

  /** Loading the concatenation of complete flushes, one per process, gives the union of what
      the processes recorded. */
  lemma {:induction false} ReloadUnion(flushes: seq<seq<u32>>, texts: seq<string>)
    requires |texts| == |flushes| && forall k :: 0 <= k < |texts| ==> texts[k] == LogText(flushes[k])
    ensures IdsOfLines(Lines(Concat(texts))) == set k, id | 0 <= k < |flushes| && id in flushes[k] :: id
  {
    if texts != [] {
      ReloadUnion(flushes[1..], texts[1..]);
      LogLines(flushes[0]);
      LinesConcat(texts[0], Concat(texts[1..]));
      IdsOfLinesConcat(Lines(texts[0]), Lines(Concat(texts[1..])));
      assert forall k :: 1 <= k < |flushes| ==> flushes[k] == flushes[1..][k - 1];
    }
  }
}

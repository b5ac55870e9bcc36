/** Finding the test binaries in the JSON that CTest prints: the strings of all `"command"`
    arrays, picked out by a scanner that always advances. */
module Ctest {
  import opened Scalars
  import opened Seqs
  import opened Text

  const KEY: string := "\"command\""

  // ---------------------------------------------------------------- specification, on the rest of the text

  function SkipColons(t: string): (r: string)
    ensures |r| <= |t|
  {
    if t != "" && (IsSpace(t[0]) || t[0] == ':') then SkipColons(t[1..]) else t
  }

  function SkipCommas(t: string): (r: string)
    ensures |r| <= |t|
  {
    if t != "" && (IsSpace(t[0]) || t[0] == ',') then SkipCommas(t[1..]) else t
  }

  /** A string behind its opening quote: the value, and the text behind the closing quote. */
  function ReadString(t: string): (r: (string, string))
    ensures |r.1| <= |t|
    decreases |t|
  {
    if t == "" then ("", "")
    else if t[0] == '"' then ("", t[1..])
    else if t[0] == '\\' && |t| > 1 then var r := ReadString(t[2..]); ([t[1]] + r.0, r.1)
    else var r := ReadString(t[1..]); ([t[0]] + r.0, r.1)
  }

  function NonEmpty(v: string): seq<string> {
    if v == "" then [] else [v]
  }

  /** An array behind its bracket: the nonempty strings, and the text from the closing bracket. */
  function ReadArray(t: string): (r: (seq<string>, string))
    ensures |r.1| <= |t|
    decreases |t|
  {
    var u := SkipCommas(t);
    if t == "" || t[0] == ']' then ([], t)
    else if u == "" || u[0] == ']' then ([], u)
    else if u[0] != '"' then ReadArray(u[1..])
    else
      var s := ReadString(u[1..]);
      var r := ReadArray(s.1);
      (NonEmpty(s.0) + r.0, r.1)
  }

  function Commands(t: string): seq<string>
    decreases |t|
  {
    var p := Find(KEY, t);
    if p.None? then [] else
      var u := SkipColons(t[p.value + |KEY|..]);
      if u == "" || u[0] != '[' then Commands(u)
      else
        var r := ReadArray(u[1..]);
        r.0 + Commands(r.1)
  }

  // ---------------------------------------------------------------- the scanner

  method ScanString(json: string, from: nat) returns (val: string, i: nat)
    requires from <= |json|
    ensures from <= i <= |json| && ReadString(json[from..]) == (val, json[i..])
  {
    val, i := "", from;
    assert val + ReadString(json[from..]).0 == ReadString(json[from..]).0;
    while i < |json| && json[i] != '"'
      invariant from <= i <= |json|
      invariant ReadString(json[from..]) == (val + ReadString(json[i..]).0, ReadString(json[i..]).1)
      decreases |json| - i
    {
      if json[i] == '\\' && i + 1 < |json| {
        assert json[i..][2..] == json[i + 2..];
        Assoc(val, [json[i + 1]], ReadString(json[i + 2..]).0);
        val := val + [json[i + 1]];
        i := i + 2;
      } else {
        assert json[i..][1..] == json[i + 1..];
        Assoc(val, [json[i]], ReadString(json[i + 1..]).0);
        val := val + [json[i]];
        i := i + 1;
      }
    }
    assert val + "" == val;
    if i < |json| {
      assert json[i..][1..] == json[i + 1..];
      i := i + 1;
    }
  }

  /** One round of the array loop: at most one element, or the end of the array. */
  method ScanElement(json: string, start: nat) returns (vals: seq<string>, i: nat, ended: bool)
    requires start < |json| && json[start] != ']'
    ensures start <= i <= |json| && (!ended ==> start < i)
    ensures ReadArray(json[start..]) ==
            if ended then (vals, json[i..]) else (vals + ReadArray(json[i..]).0, ReadArray(json[i..]).1)
  {
    vals, ended := [], false;
    i := SkipTo(json, start);
    ArrayStep(json, start, i);
    if i >= |json| || json[i] == ']' {
      ended := true;
      return;
    }
    if json[i] != '"' {
      i := i + 1;
      assert vals + ReadArray(json[i..]).0 == ReadArray(json[i..]).0;
      return;
    }
    ghost var s := ReadString(json[i + 1..]);
    var val;
    val, i := ScanString(json, i + 1);
    assert s == (val, json[i..]);
    vals := NonEmpty(val);
  }

  lemma ArrayStep(json: string, start: nat, i: nat)
    requires start < |json| && json[start] != ']' && start <= i <= |json| && SkipCommas(json[start..]) == json[i..]
    ensures ReadArray(json[start..]) ==
            if i == |json| || json[i] == ']' then ([], json[i..])
            else if json[i] != '"' then ReadArray(json[i + 1..])
            else var s := ReadString(json[i + 1..]); (NonEmpty(s.0) + ReadArray(s.1).0, ReadArray(s.1).1)
  {
    if i < |json| { assert json[i..][1..] == json[i + 1..]; }
  }

  method ScanArray(json: string, from: nat) returns (paths: seq<string>, i: nat)
    requires from <= |json|
    ensures from <= i <= |json| && ReadArray(json[from..]) == (paths, json[i..])
  {
    paths, i := [], from;
    assert paths + ReadArray(json[from..]).0 == ReadArray(json[from..]).0;
    while i < |json| && json[i] != ']'
      invariant from <= i <= |json|
      invariant ReadArray(json[from..]) == (paths + ReadArray(json[i..]).0, ReadArray(json[i..]).1)
      decreases |json| - i
    {
      var vals, j, ended := ScanElement(json, i);
      Assoc(paths, vals, ReadArray(json[j..]).0);
      paths, i := paths + vals, j;
      if ended {
        return;
      }
    }
    assert paths + [] == paths;
  }

  method SkipTo(json: string, from: nat) returns (i: nat)
    requires from <= |json|
    ensures from <= i <= |json| && SkipCommas(json[from..]) == json[i..]
  {
    i := from;
    while i < |json| && (IsSpace(json[i]) || json[i] == ',')
      invariant from <= i <= |json| && SkipCommas(json[from..]) == SkipCommas(json[i..])
      decreases |json| - i
    {
      assert json[i..][1..] == json[i + 1..];
      i := i + 1;
    }
  }

  method SkipToValue(json: string, from: nat) returns (i: nat)
    requires from <= |json|
    ensures from <= i <= |json| && SkipColons(json[from..]) == json[i..]
  {
    i := from;
    while i < |json| && (IsSpace(json[i]) || json[i] == ':')
      invariant from <= i <= |json| && SkipColons(json[from..]) == SkipColons(json[i..])
      decreases |json| - i
    {
      assert json[i..][1..] == json[i + 1..];
      i := i + 1;
    }
  }

  /** One round of the outer loop: the next key and its array, if it has one. */
  method ScanCommand(json: string, pos: nat) returns (vals: seq<string>, next: nat, ended: bool)
    requires pos <= |json|
    ensures pos <= next <= |json| && (!ended ==> pos < next)
    ensures Commands(json[pos..]) == if ended then vals else vals + Commands(json[next..])
  {
    vals, next, ended := [], pos, false;
    var at := Find(KEY, json[pos..]);
    if at.None? {
      ended := true;
      return;
    }
    var from := pos + at.value + |KEY|;
    assert json[pos..][at.value + |KEY|..] == json[from..];
    next := SkipToValue(json, from);
    KeyThen(json[pos..], at.value, json[next..]);
    if next >= |json| || json[next] != '[' {
      assert [] + Commands(json[next..]) == Commands(json[next..]);
      return;
    }
    assert json[next..][1..] == json[next + 1..];
    vals, next := ScanArray(json, next + 1);
  }

  lemma KeyThen(t: string, p: nat, u: string)
    requires Find(KEY, t) == Some(p) && u == SkipColons(t[p + |KEY|..])
    ensures Commands(t) == if u == "" || u[0] != '[' then Commands(u)
                           else ReadArray(u[1..]).0 + Commands(ReadArray(u[1..]).1)
  {
  }

  /** `parse_ctest_command_paths`; the position strictly advances, so it ends on every input. */
  method ParseCommandPaths(json: string) returns (paths: seq<string>)
    ensures paths == Commands(json)
  {
    paths := [];
    var pos := 0;
    assert json[0..] == json;
    while true
      invariant pos <= |json| && Commands(json) == paths + Commands(json[pos..])
      decreases |json| - pos
    {
      var vals, next, ended := ScanCommand(json, pos);
      Assoc(paths, vals, Commands(json[next..]));
      paths, pos := paths + vals, next;
      if ended {
        return;
      }
    }
  }

  // ---------------------------------------------------------------- rendered input

  /** Only quotes and backslashes are escaped. */
  function Quote(v: string): string {
    if v == "" then "" else QuoteChar(v[0]) + Quote(v[1..])
  }

  /** One element: what separates it from the previous one, and its value. */
  datatype Item = Item(sep: string, value: string)

  /** `"command"`, a colon, an array, and the text up to the next command. */
  datatype Command = Command(colon: string, items: seq<Item>, close: string, after: string)

  predicate Separator(s: string) {
    forall k :: 0 <= k < |s| ==> IsSpace(s[k]) || s[k] == ','
  }

  predicate Colon(s: string) {
    forall k :: 0 <= k < |s| ==> IsSpace(s[k]) || s[k] == ':'
  }

  function ItemsText(items: seq<Item>, close: string, after: string): string {
    if items == [] then close + "]" + after
    else items[0].sep + "\"" + Quote(items[0].value) + "\"" + ItemsText(items[1..], close, after)
  }

  function CommandsText(cs: seq<Command>): string {
    if cs == [] then "" else
      "\"command\"" + cs[0].colon + "[" + ItemsText(cs[0].items, cs[0].close, cs[0].after + CommandsText(cs[1..]))
  }

  /** No key starts in the text, not even one that the next key would complete. */
  ghost predicate Clear(seg: string) {
    forall i: nat :: i < |seg| ==> !MatchAt(KEY, seg + KEY, i)
  }

  ghost predicate CommandOk(c: Command) {
    && Colon(c.colon) && Separator(c.close) && Clear(c.after)
    && forall k :: 0 <= k < |c.items| ==> Separator(c.items[k].sep)
  }

  function Values(items: seq<Item>): seq<string> {
    if items == [] then [] else [items[0].value] + Values(items[1..])
  }

  function AllValues(cs: seq<Command>): seq<string> {
    if cs == [] then [] else Values(cs[0].items) + AllValues(cs[1..])
  }

  function DropEmpty(vs: seq<string>): seq<string> {
    if vs == [] then [] else if |vs[0]| > 0 then [vs[0]] + DropEmpty(vs[1..]) else DropEmpty(vs[1..])
  }

  /** Dropping the empty strings keeps the others as often as they occur. */
  lemma {:induction false} DropEmptyExact(vs: seq<string>, v: string)
    ensures multiset(DropEmpty(vs))[v] == if v == "" then 0 else multiset(vs)[v]
  {
    if vs != [] {
      DropEmptyExact(vs[1..], v);
      assert vs == [vs[0]] + vs[1..];
    }
  }

  /** And in their order. */
  lemma {:induction false} DropEmptySplit(vs: seq<string>, ws: seq<string>)
    ensures DropEmpty(vs + ws) == DropEmpty(vs) + DropEmpty(ws)
  {
    if vs == [] {
      assert vs + ws == ws;
    } else {
      DropEmptySplit(vs[1..], ws);
      assert (vs + ws)[1..] == vs[1..] + ws && (vs + ws)[0] == vs[0];
      Assoc([vs[0]], DropEmpty(vs[1..]), DropEmpty(ws));
    }
  }

  lemma DropEmptyFirst(v: string, vs: seq<string>)
    ensures DropEmpty([v] + vs) == NonEmpty(v) + DropEmpty(vs)
  {
    assert ([v] + vs)[1..] == vs;
    assert [] + DropEmpty(vs) == DropEmpty(vs);
  }

  function QuoteChar(c: char): string {
    if c == '"' || c == '\\' then "\\" + [c] else [c]
  }

  lemma QuotedChar(c: char, tail: string)
    ensures ReadString(QuoteChar(c) + tail) == ([c] + ReadString(tail).0, ReadString(tail).1)
  {
    var t := QuoteChar(c) + tail;
    if c == '"' || c == '\\' {
      assert t[2..] == tail;
    } else {
      assert t[1..] == tail;
    }
  }

  lemma {:induction false} QuoteRead(v: string, rest: string)
    ensures ReadString(Quote(v) + "\"" + rest) == (v, rest)
  {
    if v == "" {
      assert Quote(v) + "\"" + rest == "\"" + rest;
    } else {
      var tail := Quote(v[1..]) + "\"" + rest;
      QuoteRead(v[1..], rest);
      QuotedChar(v[0], tail);
      assert Quote(v) + "\"" + rest == QuoteChar(v[0]) + tail;
      assert [v[0]] + v[1..] == v;
    }
  }

  lemma {:induction false} CommasSkipped(sep: string, rest: string)
    requires Separator(sep) && rest != "" && !IsSpace(rest[0]) && rest[0] != ','
    ensures SkipCommas(sep + rest) == rest
  {
    if sep == "" {
      assert sep + rest == rest;
    } else {
      assert (sep + rest)[1..] == sep[1..] + rest;
      CommasSkipped(sep[1..], rest);
    }
  }

  lemma {:induction false} ColonsSkipped(colon: string, rest: string)
    requires Colon(colon) && rest != "" && !IsSpace(rest[0]) && rest[0] != ':'
    ensures SkipColons(colon + rest) == rest
  {
    if colon == "" {
      assert colon + rest == rest;
    } else {
      assert (colon + rest)[1..] == colon[1..] + rest;
      ColonsSkipped(colon[1..], rest);
    }
  }

  lemma ItemRead(sep: string, v: string, rest: string)
    requires Separator(sep)
    ensures ReadArray(sep + "\"" + Quote(v) + "\"" + rest) == (NonEmpty(v) + ReadArray(rest).0, ReadArray(rest).1)
  {
    var s := Quote(v) + "\"" + rest;
    var t, u := sep + "\"" + Quote(v) + "\"" + rest, "\"" + s;
    assert t == sep + u;
    CommasSkipped(sep, u);
    assert u[1..] == s;
    QuoteRead(v, rest);
    assert t[0] == if sep == "" then '"' else sep[0];
  }

  lemma CloseRead(close: string, after: string)
    requires Separator(close)
    ensures ReadArray(close + "]" + after) == ([], "]" + after)
  {
    assert close + "]" + after == close + ("]" + after);
    CommasSkipped(close, "]" + after);
    if close == "" { assert close + ("]" + after) == "]" + after; }
  }

  lemma {:induction false} ItemsRead(items: seq<Item>, close: string, after: string)
    requires Separator(close) && forall k :: 0 <= k < |items| ==> Separator(items[k].sep)
    ensures ReadArray(ItemsText(items, close, after)) == (DropEmpty(Values(items)), "]" + after)
  {
    if items == [] {
      CloseRead(close, after);
    } else {
      ItemsRead(items[1..], close, after);
      DropEmptyFirst(items[0].value, Values(items[1..]));
      ItemRead(items[0].sep, items[0].value, ItemsText(items[1..], close, after));
    }
  }

  /** The next key behind clear text is found where it was put. */
  lemma KeyFound(pre: string, rest: string)
    requires Clear(pre)
    ensures Find(KEY, pre + (KEY + rest)) == Some(|pre|) && (pre + (KEY + rest))[|pre| + |KEY|..] == rest
  {
    var t := pre + (KEY + rest);
    assert t[|pre|..|pre| + |KEY|] == KEY;
    assert MatchAt(KEY, t, |pre|);
    forall i: nat | i < |pre|
      ensures !MatchAt(KEY, t, i)
    {
      assert t[i..i + |KEY|] == (pre + KEY)[i..i + |KEY|];
      assert !MatchAt(KEY, pre + KEY, i);
    }
  }

  lemma NoKey(pre: string)
    requires Clear(pre)
    ensures Find(KEY, pre) == None
  {
    var p := Find(KEY, pre);
    if p.Some? {
      assert (pre + KEY)[p.value..p.value + |KEY|] == pre[p.value..p.value + |KEY|];
      assert MatchAt(KEY, pre + KEY, p.value);
    }
  }

  lemma BracketClear(seg: string)
    requires Clear(seg)
    ensures Clear("]" + seg)
  {
    var t := "]" + seg;
    forall i: nat | i < |t|
      ensures !MatchAt(KEY, t + KEY, i)
    {
      assert t + KEY == "]" + (seg + KEY);
      if i == 0 {
        assert (t + KEY)[0] == ']' && KEY[0] == '"';
      } else if i + |KEY| <= |t + KEY| {
        assert (t + KEY)[i..i + |KEY|] == (seg + KEY)[i - 1..i - 1 + |KEY|];
        assert !MatchAt(KEY, seg + KEY, i - 1);
      }
    }
  }

  lemma CommandLaid(colon: string, items: string)
    ensures KEY + colon + "[" + items == KEY + (colon + ("[" + items))
  {
  }

  lemma OneCommand(pre: string, colon: string, items: string, vals: seq<string>, rest: string)
    requires Clear(pre) && Colon(colon) && ReadArray(items) == (vals, rest)
    ensures Commands(pre + (KEY + (colon + ("[" + items)))) == vals + Commands(rest)
  {
    KeyFound(pre, colon + ("[" + items));
    ColonsSkipped(colon, "[" + items);
    assert ("[" + items)[1..] == items;
  }

  lemma {:induction false} CommandsScanned(pre: string, cs: seq<Command>)
    requires Clear(pre) && forall k :: 0 <= k < |cs| ==> CommandOk(cs[k])
    ensures Commands(pre + CommandsText(cs)) == DropEmpty(AllValues(cs))
    decreases |cs|
  {
    if cs == [] {
      assert pre + CommandsText(cs) == pre;
      NoKey(pre);
    } else {
      var c, more := cs[0], CommandsText(cs[1..]);
      var items := ItemsText(c.items, c.close, c.after + more);
      CommandLaid(c.colon, items);
      ItemsRead(c.items, c.close, c.after + more);
      OneCommand(pre, c.colon, items, DropEmpty(Values(c.items)), "]" + (c.after + more));
      BracketClear(c.after);
      Assoc("]", c.after, more);
      CommandsScanned("]" + c.after, cs[1..]);
      DropEmptySplit(Values(c.items), AllValues(cs[1..]));
    }
  }

  /** On rendered input the scanner returns exactly the strings that were rendered, in order, without
      the empty ones. */
  lemma CommandsRead(pre: string, cs: seq<Command>)
    requires Clear(pre) && forall k :: 0 <= k < |cs| ==> CommandOk(cs[k])
    ensures var r := Commands(pre + CommandsText(cs));
            && r == DropEmpty(AllValues(cs)) && "" !in r
            && forall v :: v != "" ==> multiset(r)[v] == multiset(AllValues(cs))[v]
  {
    CommandsScanned(pre, cs);
    forall v
      ensures multiset(DropEmpty(AllValues(cs)))[v] == if v == "" then 0 else multiset(AllValues(cs))[v]
    {
      DropEmptyExact(AllValues(cs), v);
    }
    assert "" !in multiset(DropEmpty(AllValues(cs)));
  }

  /** A segment without the key that does not end in all of it but the last quote is clear. */
  lemma ClearSegments(seg: string)
    requires forall i: nat :: !MatchAt(KEY, seg, i)
    requires |seg| < 8 || seg[|seg| - 8..] != KEY[..8]
    ensures Clear(seg)
  {
    forall i: nat | i < |seg|
      ensures !MatchAt(KEY, seg + KEY, i)
    {
      if MatchAt(KEY, seg + KEY, i) {
        if i + 9 <= |seg| {
          assert (seg + KEY)[i..i + 9] == seg[i..i + 9];
          assert MatchAt(KEY, seg, i);
        } else {
          Straddle(seg, i);
        }
      }
    }
  }

  lemma Straddle(seg: string, i: nat)
    requires i < |seg| < i + 9 && MatchAt(KEY, seg + KEY, i)
    ensures i + 8 == |seg| && seg[|seg| - 8..] == KEY[..8]
  {
    var t := seg + KEY;
    assert forall k :: 0 <= k < 9 ==> t[i..i + 9][k] == t[i + k] == KEY[k];
    assert t[|seg|] == '"' == KEY[|seg| - i];
    assert forall k :: 1 <= k < 8 ==> KEY[k] != '"';
    assert seg[|seg| - 8..] == t[i..i + 9][..8];
  }
}

/** The mutant catalog: printed by the plugin as newline-delimited JSON, read back by the
    runner's field scanner. */
module Catalog {
  import opened Scalars
  import opened Seqs
  import opened Text
  import opened Escape
  import opened Keys

  // ---------------------------------------------------------------- printing

  function NumField(key: string, n: nat): string {
    "\"" + key + "\":" + Dec(n)
  }

  function StrField(key: string, s: string): string {
    "\"" + key + "\":\"" + EscapeAll(s) + "\""
  }

  datatype Field = Num(key: string, n: nat) | Str(key: string, s: string)

  function FieldText(f: Field): string {
    match f
    case Num(key, n) => NumField(key, n)
    case Str(key, s) => StrField(key, s)
  }

  /** What follows the first field. */
  function Behind(fs: seq<Field>): string
    requires fs != []
    decreases |fs|, 0
  {
    if |fs| == 1 then "}" else "," + Join(fs[1..])
  }

  function Join(fs: seq<Field>): string
    requires fs != []
    decreases |fs|, 1
  {
    FieldText(fs[0]) + Behind(fs)
  }

  function FieldsOf(r: Mutant): seq<Field> {
    [Num("id", r.id), Str("file", r.file), Num("line", r.line), Num("col", r.col),
     Str("kind", r.kind), Str("op", r.op), Str("mut", r.mut)]
  }

  function Line(r: Mutant): string {
    "{" + Join(FieldsOf(r))
  }

  function LineAll(recs: seq<Mutant>): (ls: seq<string>)
    ensures |ls| == |recs| && forall k :: 0 <= k < |recs| ==> ls[k] == Line(recs[k])
  {
    seq(|recs|, k requires 0 <= k < |recs| => Line(recs[k]))
  }

  /** `toNdjson` */
  function Ndjson(recs: seq<Mutant>): string {
    JoinLines(LineAll(recs))
  }

  lemma LineBehind(first: string, rest: string, last: string)
    ensures first + "\n" + (rest + last + "\n") == (first + "\n" + rest) + last + "\n"
  {
  }

  lemma {:induction false} JoinMore(ls: seq<string>, l: string)
    ensures JoinLines(ls + [l]) == JoinLines(ls) + l + "\n"
  {
    if ls == [] {
      assert [l][1..] == [];
    } else {
      assert (ls + [l])[1..] == ls[1..] + [l];
      JoinMore(ls[1..], l);
      LineBehind(ls[0], JoinLines(ls[1..]), l);
    }
  }

  /** The plugin's printing loop: escape each string, append each line. */
  method ToNdjson(recs: seq<Mutant>) returns (json: string)
    ensures json == Ndjson(recs)
  {
    json := "";
    for k := 0 to |recs|
      invariant json == Ndjson(recs[..k])
    {
      var line := PrintLine(recs[k]);
      LinesMore(recs, k);
      JoinMore(LineAll(recs[..k]), line);
      json := json + line + "\n";
    }
    assert recs[..|recs|] == recs;
  }

  lemma LinesMore(recs: seq<Mutant>, k: nat)
    requires k < |recs|
    ensures LineAll(recs[..k + 1]) == LineAll(recs[..k]) + [Line(recs[k])]
  {
  }

  /** One more field and its comma. */
  method PrintField(json: string, f: Field, ghost fs: seq<Field>) returns (json': string)
    requires |fs| > 1 && fs[0] == f
    ensures json' + Join(fs[1..]) == json + Join(fs)
  {
    var text;
    match f {
      case Num(key, n) => text := "\"" + key + "\":" + Dec(n);
      case Str(key, s) =>
        var escaped := JsonEscape(s);
        text := "\"" + key + "\":\"" + escaped + "\"";
    }
    json' := json + text + ",";
    Appended(json, text, ",", Join(fs[1..]));
  }

  lemma Appended(a: string, b: string, c: string, d: string)
    ensures (a + b + c) + d == a + (b + (c + d))
  {
  }

  method PrintLine(r: Mutant) returns (json: string)
    ensures json == Line(r)
  {
    ghost var fs := FieldsOf(r);
    json := PrintField("{", Num("id", r.id), fs);
    json := PrintField(json, Str("file", r.file), fs[1..]);
    json := PrintField(json, Num("line", r.line), fs[1..][1..]);
    json := PrintField(json, Num("col", r.col), fs[1..][1..][1..]);
    json := PrintField(json, Str("kind", r.kind), fs[1..][1..][1..][1..]);
    json := PrintField(json, Str("op", r.op), fs[1..][1..][1..][1..][1..]);
    var mut := JsonEscape(r.mut);
    json := json + ("\"mut\":\"" + mut + "\"" + "}");
    LastField(r.mut, mut);
    assert fs[1..][1..][1..][1..][1..][1..] == [Str("mut", r.mut)];
  }

  lemma LastField(s: string, escaped: string)
    requires escaped == EscapeAll(s)
    ensures "\"mut\":\"" + escaped + "\"" + "}" == Join([Str("mut", s)])
  {
  }

  // ---------------------------------------------------------------- looking for a key

  predicate IsLetter(c: char) {
    'a' <= c <= 'z'
  }

  predicate Letters(s: string) {
    forall k :: 0 <= k < |s| ==> IsLetter(s[k])
  }

  function KeyMark(key: string): string {
    "\"" + key + "\":"
  }

  /** The text behind the first match of a pattern. */
  function After(pat: string, text: string): Option<string> {
    match Find(pat, text)
    case None => None
    case Some(p) => Some(text[p + |pat|..])
  }

  /** No match of the pattern starts inside `x` when `rest` follows it. */
  ghost predicate Quiet(pat: string, x: string, rest: string) {
    forall i: nat :: i < |x| ==> !MatchAt(pat, x + rest, i)
  }

  lemma MatchShift(pat: string, x: string, rest: string, i: nat)
    ensures MatchAt(pat, x + rest, |x| + i) <==> MatchAt(pat, rest, i)
  {
    if i + |pat| <= |rest| {
      assert (x + rest)[|x| + i..|x| + i + |pat|] == rest[i..i + |pat|];
    }
  }

  lemma AfterSkip(pat: string, x: string, rest: string)
    requires Quiet(pat, x, rest)
    ensures After(pat, x + rest) == After(pat, rest)
  {
    var f, g := Find(pat, x + rest), Find(pat, rest);
    if f.Some? {
      MatchShift(pat, x, rest, f.value - |x|);
    }
    if g.Some? {
      MatchShift(pat, x, rest, g.value);
      assert f.Some?;
      MatchShift(pat, x, rest, f.value - |x|);
      assert (x + rest)[|x| + g.value + |pat|..] == rest[g.value + |pat|..];
    }
  }

  lemma AfterHere(pat: string, rest: string)
    ensures After(pat, pat + rest) == Some(rest)
  {
    assert MatchAt(pat, pat + rest, 0);
    assert (pat + rest)[|pat|..] == rest;
  }

  lemma QuietConcat(pat: string, x: string, y: string, rest: string)
    requires Quiet(pat, x, y + rest) && Quiet(pat, y, rest)
    ensures Quiet(pat, x + y, rest)
  {
    assert (x + y) + rest == x + (y + rest);
    forall i: nat | i < |x + y|
      ensures !MatchAt(pat, (x + y) + rest, i)
    {
      if i >= |x| { MatchShift(pat, x, y + rest, i - |x|); }
    }
  }

  lemma MatchChars(pat: string, text: string, i: nat)
    requires MatchAt(pat, text, i) && |pat| > 1
    ensures text[i] == pat[0] && text[i + 1] == pat[1]
  {
    assert pat[0] == text[i..i + |pat|][0] && pat[1] == text[i..i + |pat|][1];
  }

  /** A match starts with a quote. */
  lemma QuietRaw(key: string, more: string, x: string, rest: string)
    requires forall k :: 0 <= k < |x| ==> x[k] != '"'
    ensures Quiet(KeyMark(key) + more, x, rest)
  {
    forall i: nat | i < |x|
      ensures !MatchAt(KeyMark(key) + more, x + rest, i)
    {
      if MatchAt(KeyMark(key) + more, x + rest, i) { MatchChars(KeyMark(key) + more, x + rest, i); }
    }
  }

  /** A quote that is not followed by a letter starts no match. */
  lemma QuietQuote(key: string, more: string, rest: string)
    requires Letters(key) && key != "" && (rest == "" || !IsLetter(rest[0]))
    ensures Quiet(KeyMark(key) + more, "\"", rest)
  {
    if MatchAt(KeyMark(key) + more, "\"" + rest, 0) { MatchChars(KeyMark(key) + more, "\"" + rest, 0); }
  }

  /** The mark of another key starts no match. */
  lemma QuietMark(key: string, more: string, other: string, rest: string)
    requires Letters(key) && Letters(other) && key != "" && other != "" && key != other
    ensures Quiet(KeyMark(key) + more, KeyMark(other), rest)
  {
    var pat, text := KeyMark(key) + more, KeyMark(other) + rest;
    forall i: nat | i < |KeyMark(other)|
      ensures !MatchAt(pat, text, i)
    {
      if i == 0 {
        MarkDiffers(key, more, other, rest);
      } else if MatchAt(pat, text, i) {
        MatchChars(pat, text, i);
      }
    }
  }

  lemma MarkDiffers(key: string, more: string, other: string, rest: string)
    requires Letters(key) && Letters(other) && key != other
    ensures !MatchAt(KeyMark(key) + more, KeyMark(other) + rest, 0)
  {
    var t := other + "\":" + rest;
    assert KeyMark(other) + rest == "\"" + t;
    MatchStartsMark(key, more, t);
    assert StartsMark(other, t);
    if StartsMark(key, t) { OtherMark(key, other, t); }
  }

  lemma OtherMark(key: string, other: string, t: string)
    requires Letters(key) && Letters(other) && StartsMark(other, t) && StartsMark(key, t)
    ensures key == other
  {
    assert |key| == |other|;
  }

  // ---------------------------------------------------------------- values start no match

  /** The text begins with the letters `w`, a quote and a colon. */
  predicate StartsMark(w: string, t: string) {
    |w| + 2 <= |t| && (forall k :: 0 <= k < |w| ==> t[k] == w[k]) && t[|w|] == '"' && t[|w| + 1] == ':'
  }

  lemma StartsRest(w: string, t: string)
    requires w != "" && t != "" && StartsMark(w, t)
    ensures t[0] == w[0] && StartsMark(w[1..], t[1..])
  {
  }

  /** No tail of an escaped value begins with a mark: quotes inside are behind a backslash, and
      the closing one is not followed by a colon. */
  lemma {:induction false} NoMarkEnd(w: string, s: string, sep: char, rest: string)
    requires Letters(w) && sep != ':'
    ensures !StartsMark(w, EscapeAll(s) + "\"" + [sep] + rest)
    decreases |s|
  {
    var t := EscapeAll(s) + "\"" + [sep] + rest;
    if s == "" {
      assert t == "\"" + [sep] + rest && t[0] == '"' && t[1] == sep;
    } else {
      var u := EscapeAll(s[1..]) + "\"" + [sep] + rest;
      assert t == EscapeChar(s[0]) + u;
      if EscapeChar(s[0]) == [s[0]] && w != "" {
        NoMarkEnd(w[1..], s[1..], sep, rest);
        assert t[1..] == u;
        if StartsMark(w, t) { StartsRest(w, t); }
      } else {
        assert t[0] == EscapeChar(s[0])[0];
      }
    }
  }

  lemma MatchStartsMark(key: string, more: string, t: string)
    ensures MatchAt(KeyMark(key) + more, "\"" + t, 0) ==> StartsMark(key, t)
  {
    var pat := KeyMark(key) + more;
    if MatchAt(pat, "\"" + t, 0) {
      assert forall k :: 0 <= k < |pat| ==> pat[k] == ("\"" + t)[0..|pat|][k] == ("\"" + t)[k];
      assert forall k :: 0 <= k < |key| + 2 ==> t[k] == pat[k + 1];
    }
  }

  /** An escaped quote starts no match. */
  lemma QuietEscapedQuote(key: string, more: string, s: string, sep: char, rest: string)
    requires Letters(key) && sep != ':'
    ensures !MatchAt(KeyMark(key) + more, "\"" + (EscapeAll(s) + "\"" + [sep] + rest), 0)
  {
    MatchStartsMark(key, more, EscapeAll(s) + "\"" + [sep] + rest);
    NoMarkEnd(key, s, sep, rest);
  }

  lemma QuietChar(key: string, more: string, c: char, s: string, sep: char, rest: string)
    requires Letters(key) && key != "" && sep != ':'
    ensures Quiet(KeyMark(key) + more, EscapeChar(c), EscapeAll(s) + "\"" + [sep] + rest)
  {
    var t := EscapeAll(s) + "\"" + [sep] + rest;
    if c == '"' {
      var pat := KeyMark(key) + more;
      QuietRaw(key, more, "\\", "\"" + t);
      forall i: nat | i < 2
        ensures !MatchAt(pat, EscapeChar(c) + t, i)
      {
        assert EscapeChar(c) + t == "\\" + ("\"" + t);
        if i == 1 {
          QuietEscapedQuote(key, more, s, sep, rest);
          MatchShift(pat, "\\", "\"" + t, 0);
        }
      }
    } else {
      QuietRaw(key, more, EscapeChar(c), t);
    }
  }

  lemma {:induction false} QuietValue(key: string, more: string, s: string, sep: char, rest: string)
    requires Letters(key) && key != "" && sep != ':' && !IsLetter(sep)
    ensures Quiet(KeyMark(key) + more, EscapeAll(s) + "\"", [sep] + rest)
    decreases |s|
  {
    var pat := KeyMark(key) + more;
    if s == "" {
      QuietQuote(key, more, [sep] + rest);
      assert EscapeAll(s) + "\"" == "\"";
    } else {
      var t := EscapeAll(s[1..]) + "\"";
      QuietValue(key, more, s[1..], sep, rest);
      QuietChar(key, more, s[0], s[1..], sep, rest);
      assert t + ([sep] + rest) == EscapeAll(s[1..]) + "\"" + [sep] + rest;
      QuietConcat(pat, EscapeChar(s[0]), t, [sep] + rest);
      assert EscapeAll(s) + "\"" == EscapeChar(s[0]) + t;
    }
  }

  // ---------------------------------------------------------------- whole fields

  /** A field of another key is skipped, whatever its value. */
  lemma SkipNum(key: string, more: string, other: string, n: nat, rest: string)
    requires Letters(key) && Letters(other) && key != "" && other != "" && key != other
    ensures After(KeyMark(key) + more, NumField(other, n) + "," + rest) == After(KeyMark(key) + more, rest)
  {
    var pat, x := KeyMark(key) + more, Dec(n) + ",";
    QuietMark(key, more, other, x + rest);
    QuietRaw(key, more, x, rest);
    QuietConcat(pat, KeyMark(other), x, rest);
    AfterSkip(pat, KeyMark(other) + x, rest);
    assert NumField(other, n) + "," + rest == (KeyMark(other) + x) + rest;
  }

  lemma Rejoined(key: string, e: string, sep: char, rest: string)
    ensures ("\"" + key + "\":\"" + e + "\"") + [sep] + rest ==
            (("\"" + key + "\":") + (("\"" + (e + "\"")) + [sep])) + rest
  {
    assert "\":\"" == "\":" + "\"";
  }

  lemma SkipStr(key: string, more: string, other: string, s: string, sep: char, rest: string)
    requires Letters(key) && Letters(other) && key != "" && other != "" && key != other && sep != ':' && sep != '"'
             && !IsLetter(sep)
    ensures After(KeyMark(key) + more, StrField(other, s) + [sep] + rest) == After(KeyMark(key) + more, rest)
  {
    var pat, v := KeyMark(key) + more, EscapeAll(s) + "\"";
    OpeningQuote(key, more, s, sep, rest);
    QuietValue(key, more, s, sep, rest);
    QuietConcat(pat, "\"", v, [sep] + rest);
    QuietRaw(key, more, [sep], rest);
    QuietConcat(pat, "\"" + v, [sep], rest);
    var x := ("\"" + v) + [sep];
    QuietMark(key, more, other, x + rest);
    QuietConcat(pat, KeyMark(other), x, rest);
    AfterSkip(pat, KeyMark(other) + x, rest);
    Rejoined(other, EscapeAll(s), sep, rest);
  }

  /** The quote that opens a value starts no match: a value is never followed by a colon. */
  lemma OpeningQuote(key: string, more: string, s: string, sep: char, rest: string)
    requires Letters(key) && sep != ':'
    ensures Quiet(KeyMark(key) + more, "\"", (EscapeAll(s) + "\"") + ([sep] + rest))
  {
    QuietEscapedQuote(key, more, s, sep, rest);
    assert (EscapeAll(s) + "\"") + ([sep] + rest) == EscapeAll(s) + "\"" + [sep] + rest;
  }

  lemma HereNum(key: string, n: nat, rest: string)
    ensures After(KeyMark(key), NumField(key, n) + rest) == Some(Dec(n) + rest)
  {
    AfterHere(KeyMark(key), Dec(n) + rest);
    assert NumField(key, n) + rest == KeyMark(key) + (Dec(n) + rest);
  }

  lemma HereStr(key: string, s: string, rest: string)
    ensures After(KeyMark(key) + "\"", StrField(key, s) + rest) == Some(EscapeAll(s) + "\"" + rest)
  {
    var v := EscapeAll(s) + "\"" + rest;
    AfterHere(KeyMark(key) + "\"", v);
    assert StrField(key, s) + rest == (KeyMark(key) + "\"") + v;
  }

  // ---------------------------------------------------------------- looking a field up

  ghost predicate Keyed(fs: seq<Field>) {
    forall k :: 0 <= k < |fs| ==> Letters(fs[k].key) && fs[k].key != ""
  }

  lemma SkipField(key: string, more: string, fs: seq<Field>)
    requires |fs| > 1 && Keyed(fs) && Letters(key) && key != "" && fs[0].key != key
    ensures After(KeyMark(key) + more, Join(fs)) == After(KeyMark(key) + more, Join(fs[1..]))
  {
    var rest := Join(fs[1..]);
    match fs[0] {
      case Num(other, n) =>
        SkipNum(key, more, other, n, rest);
        Assoc(NumField(other, n), ",", rest);
      case Str(other, s) =>
        SkipStr(key, more, other, s, ',', rest);
        Assoc(StrField(other, s), ",", rest);
    }
  }

  /** The first match of a number's mark is its own field, whatever the strings before it hold. */
  lemma {:induction false} LookupNum(fs: seq<Field>, k: nat) returns (tail: string)
    requires Keyed(fs) && k < |fs| && fs[k].Num? && forall j :: 0 <= j < k ==> fs[j].key != fs[k].key
    ensures After(KeyMark(fs[k].key), Join(fs)) == Some(Dec(fs[k].n) + tail) && tail != "" && !IsDigit(tail[0])
    decreases k
  {
    if k == 0 {
      HereNum(fs[0].key, fs[0].n, Behind(fs));
      tail := Behind(fs);
    } else {
      assert KeyMark(fs[k].key) + "" == KeyMark(fs[k].key);
      SkipField(fs[k].key, "", fs);
      tail := LookupNum(fs[1..], k - 1);
    }
  }

  lemma {:induction false} LookupStr(fs: seq<Field>, k: nat) returns (tail: string)
    requires Keyed(fs) && k < |fs| && fs[k].Str? && forall j :: 0 <= j < k ==> fs[j].key != fs[k].key
    ensures After(KeyMark(fs[k].key) + "\"", Join(fs)) == Some(EscapeAll(fs[k].s) + "\"" + tail)
    decreases k
  {
    if k == 0 {
      HereStr(fs[0].key, fs[0].s, Behind(fs));
      tail := Behind(fs);
    } else {
      SkipField(fs[k].key, "\"", fs);
      tail := LookupStr(fs[1..], k - 1);
    }
  }

  // ---------------------------------------------------------------- parsing

  function UintField(line: string, key: string): u32 {
    var t := After(KeyMark(key), line);
    if t.None? then 0 else ToUnsigned(t.value)
  }

  function StringField(line: string, key: string): string {
    var t := After(KeyMark(key) + "\"", line);
    if t.None? then "" else Unescape(t.value)
  }

  function ParseLine(line: string): Mutant {
    Mutant(UintField(line, "id"), StringField(line, "file"), UintField(line, "line"), UintField(line, "col"),
           StringField(line, "kind"), StringField(line, "op"), StringField(line, "mut"))
  }

  /** The record of a line, if the line is a record. */
  function LineRecord(line: string): seq<Mutant> {
    if line == "" || line[0] != '{' then [] else
      var m := ParseLine(line);
      if m.id != 0 && m.file != "" then [m] else []
  }

  function ParseLines(lines: seq<string>): seq<Mutant> {
    if lines == [] then [] else LineRecord(lines[0]) + ParseLines(lines[1..])
  }

  function ParseNdjson(text: string): seq<Mutant> {
    ParseLines(Lines(text))
  }

  /** What survives of a record on the way through its line. */
  function LossyRecord(r: Mutant): Mutant {
    r.(file := Lossy(r.file), kind := Lossy(r.kind), op := Lossy(r.op), mut := Lossy(r.mut))
  }

  lemma FieldUint(fs: seq<Field>, k: nat)
    requires Keyed(fs) && k < |fs| && fs[k].Num? && forall j :: 0 <= j < k ==> fs[j].key != fs[k].key
    requires fs[k].n < 0x1_0000_0000
    ensures UintField("{" + Join(fs), fs[k].key) == fs[k].n
  {
    QuietRaw(fs[k].key, "", "{", Join(fs));
    assert KeyMark(fs[k].key) + "" == KeyMark(fs[k].key);
    AfterSkip(KeyMark(fs[k].key), "{", Join(fs));
    var tail := LookupNum(fs, k);
    ParseDec(fs[k].n, tail);
  }

  lemma FieldString(fs: seq<Field>, k: nat)
    requires Keyed(fs) && k < |fs| && fs[k].Str? && forall j :: 0 <= j < k ==> fs[j].key != fs[k].key
    ensures StringField("{" + Join(fs), fs[k].key) == Lossy(fs[k].s)
  {
    QuietRaw(fs[k].key, "\"", "{", Join(fs));
    AfterSkip(KeyMark(fs[k].key) + "\"", "{", Join(fs));
    var tail := LookupStr(fs, k);
    UnescapeEscaped(fs[k].s, tail);
  }

  lemma FieldKeys(r: Mutant)
    ensures var fs := FieldsOf(r); Keyed(fs) && forall j, k :: 0 <= j < k < |fs| ==> fs[j].key != fs[k].key
  {
    assert "line"[0] == 'l' && "file"[0] == 'f' && "kind"[0] == 'k' && "col"[0] == 'c' && "mut"[0] == 'm'
           && "id"[0] == 'i' && "op"[0] == 'o';
  }

  /** A printed record is read back, up to the characters that the scanner cannot restore. */
  lemma ParsePrinted(r: Mutant)
    ensures ParseLine(Line(r)) == LossyRecord(r)
  {
    var fs := FieldsOf(r);
    FieldKeys(r);
    FieldUint(fs, 0);
    FieldString(fs, 1);
    FieldUint(fs, 2);
    FieldUint(fs, 3);
    FieldString(fs, 4);
    FieldString(fs, 5);
    FieldString(fs, 6);
  }

  // ---------------------------------------------------------------- loops of the parser

  /** Find the pattern, then copy until the closing quote. */
  method JsonStringField(line: string, key: string) returns (out: string)
    ensures out == StringField(line, key)
  {
    out := "";
    var pat := "\"" + key + "\":\"";
    assert pat == KeyMark(key) + "\"";
    var at := Find(pat, line);
    if at.None? {
      return;
    }
    out := ReadValue(line, at.value + |pat|);
  }

  method ReadValue(line: string, from: nat) returns (out: string)
    requires from <= |line|
    ensures out == Unescape(line[from..])
  {
    out := "";
    var p := from;
    while p < |line| && line[p] != '"'
      invariant p <= |line| && Unescape(line[from..]) == out + Unescape(line[p..])
      decreases |line| - p
    {
      if line[p] == '\\' && p + 1 < |line| {
        PairAt(line, p);
        Assoc(out, [Meaning(line[p + 1])], Unescape(line[p + 2..]));
        p := p + 1;
        var n := line[p];
        if n == 'n' {
          out := out + "\n";
        } else if n == 't' {
          out := out + "\t";
        } else {
          out := out + [n];
        }
      } else {
        SingleAt(line, p);
        Assoc(out, [line[p]], Unescape(line[p + 1..]));
        out := out + [line[p]];
      }
      p := p + 1;
    }
    assert out + "" == out;
  }

  lemma PairAt(line: string, p: nat)
    requires p + 1 < |line| && line[p] == '\\'
    ensures Unescape(line[p..]) == [Meaning(line[p + 1])] + Unescape(line[p + 2..])
  {
    assert line[p..][2..] == line[p + 2..];
  }

  lemma SingleAt(line: string, p: nat)
    requires p < |line| && line[p] != '"' && !(line[p] == '\\' && p + 1 < |line|)
    ensures Unescape(line[p..]) == [line[p]] + Unescape(line[p + 1..])
  {
    assert line[p..][1..] == line[p + 1..];
  }

  method JsonUintField(line: string, key: string) returns (n: u32)
    ensures n == UintField(line, key)
  {
    var pat := "\"" + key + "\":";
    var at := Find(pat, line);
    if at.None? {
      return 0;
    }
    n := ToUnsigned(line[at.value + |pat|..]);
  }

  /** One line of `parse_ndjson`: skipped, or one record. */
  method ParseRecord(line: string) returns (r: seq<Mutant>)
    ensures r == LineRecord(line)
  {
    if line == "" || line[0] == 0 as char || line[0] != '{' {
      return [];
    }
    var m := ParseFields(line);
    r := if m.id != 0 && m.file != "" then [m] else [];
  }

  /** `parse_ndjson`: the loop over the lines. */
  method ParseCatalog(text: string) returns (out: seq<Mutant>)
    ensures out == ParseNdjson(text)
  {
    out := [];
    var rest := text;
    while rest != ""
      invariant ParseNdjson(text) == out + ParseNdjson(rest)
      decreases |rest|
    {
      var record := ParseRecord(FirstLine(rest));
      LinesStep(rest);
      Assoc(out, record, ParseNdjson(RestLines(rest)));
      out, rest := out + record, RestLines(rest);
    }
    assert out + [] == out;
  }

  method ParseFields(line: string) returns (m: Mutant)
    ensures m == ParseLine(line)
  {
    var id := JsonUintField(line, "id");
    var file := JsonStringField(line, "file");
    var lineNo := JsonUintField(line, "line");
    var col := JsonUintField(line, "col");
    var kind := JsonStringField(line, "kind");
    var op := JsonStringField(line, "op");
    var mut := JsonStringField(line, "mut");
    m := Mutant(id, file, lineNo, col, kind, op, mut);
  }

  // ---------------------------------------------------------------- round trip

  lemma {:induction false} ParseLinesConcat(a: seq<string>, b: seq<string>)
    ensures ParseLines(a + b) == ParseLines(a) + ParseLines(b)
  {
    if a == [] {
      assert a + b == b;
    } else {
      assert (a + b)[1..] == a[1..] + b;
      ParseLinesConcat(a[1..], b);
      Assoc(LineRecord(a[0]), ParseLines(a[1..]), ParseLines(b));
    }
  }

  lemma ParseConcat(a: string, b: string)
    requires EndsLine(a)
    ensures ParseNdjson(a + b) == ParseNdjson(a) + ParseNdjson(b)
  {
    LinesConcat(a, b);
    ParseLinesConcat(Lines(a), Lines(b));
  }

  lemma FieldOneLine(f: Field)
    requires Letters(f.key)
    ensures OneLine(FieldText(f))
  {
    if f.Str? {
      forall k | 0 <= k < |EscapeAll(f.s)|
        ensures EscapeAll(f.s)[k] != '\n'
      {
        NoRawControls(f.s, k);
      }
    }
  }

  lemma {:induction false} JoinOneLine(fs: seq<Field>)
    requires fs != [] && Keyed(fs)
    ensures OneLine(Join(fs))
    decreases |fs|
  {
    FieldOneLine(fs[0]);
    if |fs| > 1 { JoinOneLine(fs[1..]); }
  }

  lemma LineIsOne(r: Mutant)
    ensures OneLine(Line(r)) && Line(r)[0] == '{'
  {
    FieldKeys(r);
    JoinOneLine(FieldsOf(r));
  }

  lemma ParseOne(line: string, rest: string)
    requires OneLine(line)
    ensures ParseNdjson(line + "\n" + rest) == LineRecord(line) + ParseNdjson(rest)
  {
    LinesCons(line, rest);
  }

  lemma LossyNonEmpty(s: string)
    ensures Lossy(s) == "" <==> s == ""
  {
    LossyLength(s);
  }

  /** The records that a catalog keeps, as it keeps them. */
  function Kept(recs: seq<Mutant>): seq<Mutant> {
    if recs == [] then [] else
      (if recs[0].id != 0 && recs[0].file != "" then [LossyRecord(recs[0])] else []) + Kept(recs[1..])
  }

  lemma RecordOfLine(r: Mutant)
    ensures LineRecord(Line(r)) == if r.id != 0 && r.file != "" then [LossyRecord(r)] else []
  {
    LineIsOne(r);
    ParsePrinted(r);
    LossyNonEmpty(r.file);
  }

  /** Exactly what parsing makes of a printed catalog, for every list of records. */
  lemma {:induction false} ParseOfPrint(recs: seq<Mutant>)
    ensures ParseNdjson(Ndjson(recs)) == Kept(recs) && EndsLine(Ndjson(recs))
  {
    if recs != [] {
      ParseOfPrint(recs[1..]);
      LineIsOne(recs[0]);
      RecordOfLine(recs[0]);
      NdjsonCons(recs);
      ParseOne(Line(recs[0]), Ndjson(recs[1..]));
    }
  }

  lemma NdjsonCons(recs: seq<Mutant>)
    requires recs != []
    ensures Ndjson(recs) == Line(recs[0]) + "\n" + Ndjson(recs[1..])
  {
    assert LineAll(recs)[1..] == LineAll(recs[1..]);
  }

  predicate Clean(r: Mutant) {
    r.id != 0 && r.file != "" && Plain(r.file) && Plain(r.kind) && Plain(r.op) && Plain(r.mut)
  }

  lemma KeptOne(r: Mutant)
    ensures r.id != 0 && r.file != "" && LossyRecord(r) == r <==> Clean(r)
  {
    LossyExact(r.file);
    LossyExact(r.kind);
    LossyExact(r.op);
    LossyExact(r.mut);
  }

  lemma {:induction false} KeptExact(recs: seq<Mutant>)
    ensures |Kept(recs)| <= |recs|
    ensures Kept(recs) == recs <==> forall k :: 0 <= k < |recs| ==> Clean(recs[k])
  {
    if recs != [] {
      var r, rest := recs[0], recs[1..];
      KeptExact(rest);
      KeptOne(r);
      assert recs == [r] + rest;
      if Kept(recs) == recs {
        assert |Kept(recs)| == |recs|;
        assert Kept(recs)[0] == r && Kept(recs)[1..] == rest;
      }
    }
  }

  /** The catalog round trip succeeds exactly on clean records. */
  lemma CatalogRoundTrip(recs: seq<Mutant>)
    ensures ParseNdjson(Ndjson(recs)) == recs <==> forall k :: 0 <= k < |recs| ==> Clean(recs[k])
  {
    ParseOfPrint(recs);
    KeptExact(recs);
  }

  // ---------------------------------------------------------------- catalogs of several units

  const NUL: string := [0 as char]

  /** `emitCatalog`: the string constant of one unit, with its terminator. */
  function Chunk(recs: seq<Mutant>): string {
    Ndjson(recs) + NUL
  }

  /** The chunks of several units laid out back to back by the linker. */
  function Section(units: seq<seq<Mutant>>): string {
    if units == [] then "" else Chunk(units[0]) + Section(units[1..])
  }

  /** `read_elf_catalog`: the text of all sections, each followed by a newline. */
  function Blob(sections: seq<string>): string {
    if sections == [] then "" else sections[0] + "\n" + Blob(sections[1..])
  }

  method ReadSections(sections: seq<string>) returns (recs: seq<Mutant>)
    ensures recs == ParseNdjson(Blob(sections))
  {
    var blob := "";
    for k := 0 to |sections|
      invariant Blob(sections) == blob + Blob(sections[k..])
    {
      Assoc(blob, sections[k] + "\n", Blob(sections[k + 1..]));
      assert sections[k..][1..] == sections[k + 1..];
      Assoc(blob, sections[k], "\n");
      blob := blob + sections[k];
      blob := blob + "\n";
    }
    assert blob + "" == blob;
    recs := ParseCatalog(blob);
  }

  /** Separate sections, one unit each. */
  function OwnSections(units: seq<seq<Mutant>>): (r: seq<string>)
    ensures |r| == |units| && forall k :: 0 <= k < |units| ==> r[k] == Chunk(units[k])
  {
    seq(|units|, k requires 0 <= k < |units| => Chunk(units[k]))
  }

  function KeptAll(units: seq<seq<Mutant>>): seq<Mutant> {
    if units == [] then [] else Kept(units[0]) + KeptAll(units[1..])
  }

  lemma {:induction false} KeptMore(units: seq<seq<Mutant>>, recs: seq<Mutant>)
    ensures KeptAll(units + [recs]) == KeptAll(units) + Kept(recs)
  {
    if units == [] {
      assert units + [recs] == [recs] && [recs][1..] == [];
    } else {
      assert (units + [recs])[1..] == units[1..] + [recs];
      KeptMore(units[1..], recs);
    }
  }

  lemma NulLine(rest: string)
    ensures ParseNdjson(NUL + "\n" + rest) == ParseNdjson(rest)
  {
    ParseOne(NUL, rest);
    assert [] + ParseNdjson(rest) == ParseNdjson(rest);
  }

  /** Sections joined by newlines are read in full. */
  lemma {:induction false} SeparateSections(units: seq<seq<Mutant>>)
    ensures ParseNdjson(Blob(OwnSections(units))) == KeptAll(units)
  {
    if units != [] {
      SeparateSections(units[1..]);
      ParseOfPrint(units[0]);
      var rest := Blob(OwnSections(units[1..]));
      assert OwnSections(units)[1..] == OwnSections(units[1..]);
      NulLine(rest);
      ParseConcat(Ndjson(units[0]), NUL + "\n" + rest);
      ChunkThen(Ndjson(units[0]), "\n", rest);
    }
  }

  lemma ChunkThen(text: string, sep: string, rest: string)
    ensures text + NUL + sep + rest == text + (NUL + sep + rest)
  {
  }

  /** All records but the first of every unit. */
  function KeptLater(units: seq<seq<Mutant>>): seq<Mutant> {
    if units == [] then []
    else Kept(if units[0] == [] then [] else units[0][1..]) + KeptLater(units[1..])
  }

  lemma EmptyUnit(pre: string, units: seq<seq<Mutant>>)
    requires units != [] && units[0] == []
    ensures pre + Section(units) + "\n" == (pre + NUL) + Section(units[1..]) + "\n"
  {
    assert Ndjson([]) == "" && Chunk([]) == "" + NUL == NUL;
    assert Section(units) == NUL + Section(units[1..]);
    Assoc(pre, NUL, Section(units[1..]));
  }

  lemma NonEmptyUnit(pre: string, units: seq<seq<Mutant>>)
    requires units != [] && units[0] != []
    ensures var r, more := units[0][0], units[0][1..];
            pre + Section(units) + "\n" == (pre + Line(r)) + "\n" + (Ndjson(more) + (NUL + Section(units[1..]) + "\n"))
  {
    NdjsonCons(units[0]);
    Relaid(pre, Line(units[0][0]), Ndjson(units[0][1..]), Section(units[1..]));
  }

  lemma NothingBehind(pre: string)
    requires OneLine(pre) && pre != "" && pre[0] == 0 as char
    ensures ParseNdjson(pre + "" + "\n") == []
  {
    assert pre + "" + "\n" == pre + "\n" + "";
    ParseOne(pre, "");
  }

  /** Text that begins behind a terminator: its first line begins with NUL and is skipped. */
  lemma {:induction false} BehindNul(pre: string, units: seq<seq<Mutant>>)
    requires OneLine(pre) && pre != "" && pre[0] == 0 as char
    ensures ParseNdjson(pre + Section(units) + "\n") == KeptLater(units)
    decreases |units|
  {
    if units == [] {
      NothingBehind(pre);
    } else if units[0] == [] {
      BehindEmpty(pre, units);
      BehindNul(pre + NUL, units[1..]);
    } else {
      BehindNul(NUL, units[1..]);
      BehindUnit(pre, units);
    }
  }

  lemma BehindEmpty(pre: string, units: seq<seq<Mutant>>)
    requires OneLine(pre) && pre != "" && pre[0] == 0 as char && units != [] && units[0] == []
    ensures pre + Section(units) + "\n" == (pre + NUL) + Section(units[1..]) + "\n"
    ensures OneLine(pre + NUL) && (pre + NUL)[0] == 0 as char && KeptLater(units) == KeptLater(units[1..])
  {
    EmptyUnit(pre, units);
    assert Kept([]) + KeptLater(units[1..]) == KeptLater(units[1..]);
  }

  lemma BehindUnit(pre: string, units: seq<seq<Mutant>>)
    requires OneLine(pre) && pre != "" && pre[0] == 0 as char && units != [] && units[0] != []
    ensures ParseNdjson(pre + Section(units) + "\n") ==
            Kept(units[0][1..]) + ParseNdjson(NUL + Section(units[1..]) + "\n")
    ensures KeptLater(units) == Kept(units[0][1..]) + KeptLater(units[1..])
  {
    NonEmptyUnit(pre, units);
    FirstLost(pre, units[0][0], units[0][1..], NUL + Section(units[1..]) + "\n");
  }

  lemma FirstLost(pre: string, r: Mutant, more: seq<Mutant>, tail: string)
    requires OneLine(pre) && pre != "" && pre[0] == 0 as char
    ensures ParseNdjson((pre + Line(r)) + "\n" + (Ndjson(more) + tail)) == Kept(more) + ParseNdjson(tail)
  {
    LineIsOne(r);
    ParseOne(pre + Line(r), Ndjson(more) + tail);
    ParseOfPrint(more);
    ParseConcat(Ndjson(more), tail);
    assert [] + (Kept(more) + ParseNdjson(tail)) == Kept(more) + ParseNdjson(tail);
  }

  lemma Relaid(pre: string, line: string, more: string, rest: string)
    ensures pre + (line + "\n" + more + NUL + rest) + "\n" == (pre + line) + "\n" + (more + (NUL + rest + "\n"))
  {
  }

  /** Back to back in one section, every unit but the first loses its first record. */
  lemma BackToBack(units: seq<seq<Mutant>>)
    requires units != []
    ensures ParseNdjson(Blob([Section(units)])) == Kept(units[0]) + KeptLater(units[1..])
  {
    var rest := Section(units[1..]);
    ParseOfPrint(units[0]);
    BehindNul(NUL, units[1..]);
    ParseConcat(Ndjson(units[0]), NUL + rest + "\n");
    OneSection(units);
  }

  lemma OneSection(units: seq<seq<Mutant>>)
    requires units != []
    ensures Blob([Section(units)]) == Ndjson(units[0]) + (NUL + Section(units[1..]) + "\n")
  {
    assert [Section(units)][1..] == [];
    assert Blob([Section(units)]) == Section(units) + "\n";
    ChunkThen(Ndjson(units[0]), Section(units[1..]), "\n");
  }
}

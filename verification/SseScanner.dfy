/**
 The scanner that reads usage figures out of a relayed event stream (ai-gateway/src/app.ts): the text
 arrives in chunks cut anywhere, lines are handled when complete.
 */
module SseScanner {
  import opened Prelude

  datatype Usage = Usage(promptTokens: nat, completionTokens: nat)

  /** What parsing the data of a line gives: the usage it reports and the length of its content. */
  datatype Fragment = Fragment(usage: Option<Usage>, content: nat)

  /** JSON.parse and the two lookups; None when it throws. */
  type Parser = string -> Option<Fragment>

  datatype Seen = Seen(pending: string, usage: Option<Usage>, outChars: nat)

  /** What String.prototype.trim takes off. */
  predicate IsBlank(c: char) {
    c == ' ' || '\t' <= c <= '\r' || c == '\U{A0}' || c == '\U{1680}' || '\U{2000}' <= c <= '\U{200A}'
    || c == '\U{2028}' || c == '\U{2029}' || c == '\U{202F}' || c == '\U{205F}' || c == '\U{3000}' || c == '\U{FEFF}'
  }

  function TrimLeft(s: string): string {
    if |s| > 0 && IsBlank(s[0]) then TrimLeft(s[1..]) else s
  }

  function TrimRight(s: string): string {
    if |s| > 0 && IsBlank(s[|s| - 1]) then TrimRight(s[..|s| - 1]) else s
  }

  function Trim(s: string): string {
    TrimRight(TrimLeft(s))
  }

  /** One complete line. */
  function HandleLine(parse: Parser, s: Seen, raw: string): Seen {
    var line := Trim(raw);
    if !("data:" <= line) then s
    else
      var data := Trim(line[5..]);
      if data == "[DONE]" || parse(data).None? then s
      else
        var f := parse(data).value;
        s.(usage := if f.usage.Some? then f.usage else s.usage, outChars := s.outChars + f.content)
  }

  /** pending.indexOf("\n"), the length when there is none. */
  function NewlineAt(s: string): (k: nat)
    ensures k <= |s| && '\n' !in s[..k] && (k < |s| ==> s[k] == '\n')
  {
    if |s| == 0 || s[0] == '\n' then 0 else NewlineAt(s[1..]) + 1
  }

  function Scan(parse: Parser, s: Seen, text: string): (t: Seen)
    ensures '\n' !in t.pending
    decreases |text|
  {
    var k := NewlineAt(text);
    if k == |text| then s.(pending := text) else Scan(parse, HandleLine(parse, s, text[..k]), text[k + 1..])
  }

  function Feed(parse: Parser, s: Seen, chunk: string): (t: Seen) {
    Scan(parse, s, s.pending + chunk)
  }

  function FeedAll(parse: Parser, s: Seen, chunks: seq<string>): Seen
    decreases |chunks|
  {
    if |chunks| == 0 then s else FeedAll(parse, Feed(parse, s, chunks[0]), chunks[1..])
  }

  function Join(chunks: seq<string>): string {
    if |chunks| == 0 then "" else chunks[0] + Join(chunks[1..])
  }

  /** The text pending beforehand plays no part in what a scan does. */
  lemma {:induction false} ScanIgnoresPending(parse: Parser, s: Seen, text: string, p: string)
    ensures Scan(parse, s, text) == Scan(parse, s.(pending := p), text)
    decreases |text|
  {
    var k := NewlineAt(text);
    if k < |text| {
      ScanIgnoresPending(parse, HandleLine(parse, s, text[..k]), text[k + 1..], p);
    }
  }

  lemma {:induction false} NewlineFirst(a: string, b: string)
    requires NewlineAt(a) < |a|
    ensures NewlineAt(a + b) == NewlineAt(a)
  {
    if a[0] != '\n' {
      assert (a + b)[1..] == a[1..] + b;
      NewlineFirst(a[1..], b);
    }
  }

  /** Scanning a text and then more of it is scanning it all. */
  lemma {:induction false} ScanSplit(parse: Parser, s: Seen, a: string, b: string)
    ensures Scan(parse, s, a + b) == Scan(parse, Scan(parse, s, a), Scan(parse, s, a).pending + b)
    decreases |a|
  {
    var k := NewlineAt(a);
    if k < |a| {
      NewlineFirst(a, b);
      var t := HandleLine(parse, s, a[..k]);
      assert (a + b)[..k] == a[..k] && (a + b)[k + 1..] == a[k + 1..] + b;
      ScanSplit(parse, t, a[k + 1..], b);
    } else {
      ScanIgnoresPending(parse, s, a + b, a);
    }
  }

  lemma FeedSplit(parse: Parser, s: Seen, a: string, b: string)
    ensures Feed(parse, Feed(parse, s, a), b) == Feed(parse, s, a + b)
  {
    ScanSplit(parse, s, s.pending + a, b);
    assert s.pending + (a + b) == (s.pending + a) + b;
  }

  lemma {:induction false} NoNewline(s: string)
    requires '\n' !in s
    ensures NewlineAt(s) == |s|
  {
    if |s| > 0 {
      NoNewline(s[1..]);
    }
  }

  lemma FeedNothing(parse: Parser, s: Seen)
    requires '\n' !in s.pending
    ensures Feed(parse, s, "") == s
  {
    assert s.pending + "" == s.pending;
    NoNewline(s.pending);
  }

  /** However the stream is cut, the end is the same as feeding it whole. */
  lemma {:induction false} ChunkingIrrelevant(parse: Parser, s: Seen, chunks: seq<string>)
    requires '\n' !in s.pending
    ensures FeedAll(parse, s, chunks) == Feed(parse, s, Join(chunks))
    decreases |chunks|
  {
    if |chunks| == 0 {
      FeedNothing(parse, s);
    } else {
      ChunkingIrrelevant(parse, Feed(parse, s, chunks[0]), chunks[1..]);
      FeedSplit(parse, s, chunks[0], Join(chunks[1..]));
    }
  }

  // ---------------------------------------------------------------- what a line says

  predicate AllBlank(s: string) {
    forall i | 0 <= i < |s| :: IsBlank(s[i])
  }

  /** No blank at either end. */
  predicate IsBare(s: string) {
    |s| > 0 ==> !IsBlank(s[0]) && !IsBlank(s[|s| - 1])
  }

  lemma {:induction false} TrimLeftIs(a: string, d: string)
    requires AllBlank(a) && (|d| > 0 ==> !IsBlank(d[0]))
    ensures TrimLeft(a + d) == d
  {
    if |a| > 0 {
      assert (a + d)[0] == a[0] && (a + d)[1..] == a[1..] + d;
      TrimLeftIs(a[1..], d);
    } else {
      assert a + d == d;
    }
  }

  lemma {:induction false} TrimRightIs(d: string, b: string)
    requires AllBlank(b) && (|d| > 0 ==> !IsBlank(d[|d| - 1]))
    ensures TrimRight(d + b) == d
  {
    if |b| > 0 {
      var n := |d + b| - 1;
      assert (d + b)[n] == b[|b| - 1] && (d + b)[..n] == d + b[..|b| - 1];
      TrimRightIs(d, b[..|b| - 1]);
    } else {
      assert d + b == d;
    }
  }

  /** Trimming takes off exactly the blanks around. */
  lemma TrimIs(a: string, d: string, b: string)
    requires AllBlank(a) && AllBlank(b) && IsBare(d)
    ensures Trim(a + d + b) == d
  {
    if d == "" {
      TrimLeftIs(a + b, "");
      assert a + d + b == a + b + "";
    } else {
      TrimLeftIs(a, d + b);
      assert a + d + b == a + (d + b);
      TrimRightIs(d, b);
    }
  }

  lemma {:induction false} LeftBlanks(s: string) returns (a: string)
    ensures AllBlank(a) && s == a + TrimLeft(s) && (|TrimLeft(s)| > 0 ==> !IsBlank(TrimLeft(s)[0]))
  {
    if |s| > 0 && IsBlank(s[0]) {
      a := LeftBlanks(s[1..]);
      a := [s[0]] + a;
    } else {
      a := "";
    }
  }

  lemma {:induction false} RightBlanks(s: string) returns (b: string)
    ensures AllBlank(b) && s == TrimRight(s) + b && (|TrimRight(s)| > 0 ==> !IsBlank(TrimRight(s)[|TrimRight(s)| - 1]))
  {
    if |s| > 0 && IsBlank(s[|s| - 1]) {
      b := RightBlanks(s[..|s| - 1]);
      b := b + [s[|s| - 1]];
    } else {
      b := "";
    }
  }

  lemma TrimParts(s: string) returns (a: string, b: string)
    ensures AllBlank(a) && AllBlank(b) && IsBare(Trim(s)) && s == a + Trim(s) + b
  {
    a := LeftBlanks(s);
    b := RightBlanks(TrimLeft(s));
    assert |Trim(s)| > 0 ==> Trim(s)[0] == TrimLeft(s)[0];
  }

  /** A line of data: "data:" and d, with any blanks before, between and after. */
  ghost predicate IsDataLine(line: string, d: string) {
    IsBare(d) && exists a, b, c :: Spaced(line, a, b, d, c)
  }

  predicate Spaced(line: string, a: string, b: string, d: string, c: string) {
    AllBlank(a) && AllBlank(b) && AllBlank(c) && line == a + "data:" + b + d + c
  }

  lemma DataTrimmed(line: string, d: string)
    requires IsDataLine(line, d)
    ensures "data:" <= Trim(line) && Trim(Trim(line)[5..]) == d
  {
    var a, b, c :| Spaced(line, a, b, d, c);
    if d == "" {
      assert line == a + "data:" + (b + c);
      TrimIs(a, "data:", b + c);
      TrimIs("", "", "");
      assert "" + "" + "" == "";
    } else {
      var m := "data:" + (b + d);
      assert m[|m| - 1] == d[|d| - 1] && line == a + m + c;
      TrimIs(a, m, c);
      TrimIs(b, d, "");
      assert m[5..] == b + d + "";
    }
  }

  lemma TrimmedData(line: string) returns (d: string)
    requires "data:" <= Trim(line)
    ensures IsDataLine(line, d) && d == Trim(Trim(line)[5..])
  {
    var a, c := TrimParts(line);
    var r := Trim(line)[5..];
    var b, e := TrimParts(r);
    d := Trim(r);
    assert Trim(line) == "data:" + r;
    assert line == a + "data:" + b + d + (e + c);
    assert Spaced(line, a, b, d, e + c);
  }

  /** What a line reports: the fragment its data parses to, unless it is the end mark or parses to nothing. */
  ghost predicate Reports(parse: Parser, line: string, f: Option<Fragment>) {
    if f.Some? then exists d :: IsDataLine(line, d) && d != "[DONE]" && parse(d) == f
    else forall d :: IsDataLine(line, d) ==> d == "[DONE]" || parse(d).None?
  }

  lemma LineReports(parse: Parser, s: Seen, line: string) returns (f: Option<Fragment>)
    ensures Reports(parse, line, f)
    ensures HandleLine(parse, s, line) == if f.None? then s
              else s.(usage := if f.value.usage.Some? then f.value.usage else s.usage, outChars := s.outChars + f.value.content)
  {
    if "data:" <= Trim(line) {
      var d := TrimmedData(line);
      forall x | IsDataLine(line, x)
        ensures x == d
      {
        DataTrimmed(line, x);
      }
      f := if d == "[DONE]" then None else parse(d);
    } else {
      f := None;
      forall x: string
        ensures !IsDataLine(line, x)
      {
        NoData(line, x);
      }
    }
  }

  lemma NoData(line: string, d: string)
    requires !("data:" <= Trim(line))
    ensures !IsDataLine(line, d)
  {
    if IsDataLine(line, d) {
      DataTrimmed(line, d);
    }
  }

  // ---------------------------------------------------------------- what a stream says

  function Lines(lines: seq<string>, rest: string): string {
    if |lines| == 0 then rest else lines[0] + "\n" + Lines(lines[1..], rest)
  }

  /** All the content reported, and the last usage. */
  function TotalContent(fs: seq<Option<Fragment>>): nat {
    if |fs| == 0 then 0 else (if fs[0].Some? then fs[0].value.content else 0) + TotalContent(fs[1..])
  }

  function LastUsage(fs: seq<Option<Fragment>>): Option<Usage> {
    if |fs| == 0 then None
    else if LastUsage(fs[1..]).Some? then LastUsage(fs[1..])
    else if fs[0].Some? then fs[0].value.usage else None
  }

  ghost predicate AllReport(parse: Parser, lines: seq<string>, fs: seq<Option<Fragment>>) {
    |fs| == |lines| && forall i :: 0 <= i < |lines| ==> '\n' !in lines[i] && Reports(parse, lines[i], fs[i])
  }

  lemma ConsReports(parse: Parser, line: string, f: Option<Fragment>, lines: seq<string>, fs: seq<Option<Fragment>>)
    requires AllReport(parse, lines, fs) && '\n' !in line && Reports(parse, line, f)
    ensures AllReport(parse, [line] + lines, [f] + fs)
    ensures TotalContent([f] + fs) == (if f.Some? then f.value.content else 0) + TotalContent(fs)
    ensures LastUsage([f] + fs) == if LastUsage(fs).Some? then LastUsage(fs) else if f.Some? then f.value.usage else None
  {
    assert ([f] + fs)[1..] == fs;
  }

  lemma {:induction false} ScanMeans(parse: Parser, s: Seen, text: string)
      returns (lines: seq<string>, rest: string, fs: seq<Option<Fragment>>)
    ensures text == Lines(lines, rest) && '\n' !in rest && AllReport(parse, lines, fs)
    ensures var t := Scan(parse, s, text);
            && t.pending == rest && t.outChars == s.outChars + TotalContent(fs)
            && t.usage == if LastUsage(fs).Some? then LastUsage(fs) else s.usage
    decreases |text|
  {
    var k := NewlineAt(text);
    if k == |text| {
      lines, rest, fs := [], text, [];
    } else {
      var line := text[..k];
      var f := LineReports(parse, s, line);
      var next := HandleLine(parse, s, line);
      var more, report: seq<Option<Fragment>>;
      more, rest, report := ScanMeans(parse, next, text[k + 1..]);
      ConsReports(parse, line, f, more, report);
      ConsLines(text, k, more, rest);
      lines, fs := [line] + more, [f] + report;
    }
  }

  lemma ConsLines(text: string, k: nat, more: seq<string>, rest: string)
    requires k < |text| && text[k] == '\n' && text[k + 1..] == Lines(more, rest)
    ensures text == Lines([text[..k]] + more, rest)
  {
    assert ([text[..k]] + more)[1..] == more;
    assert text == text[..k] + "\n" + text[k + 1..];
  }

  /** However the stream is cut: what is counted is the content that all its complete lines of data report,
      and what is kept is the usage reported last; the incomplete line at the end waits. */
  lemma StreamMeans(parse: Parser, chunks: seq<string>) returns (lines: seq<string>, rest: string, fs: seq<Option<Fragment>>)
    ensures Join(chunks) == Lines(lines, rest) && '\n' !in rest && AllReport(parse, lines, fs)
    ensures FeedAll(parse, Seen("", None, 0), chunks) == Seen(rest, LastUsage(fs), TotalContent(fs))
  {
    ChunkingIrrelevant(parse, Seen("", None, 0), chunks);
    assert "" + Join(chunks) == Join(chunks);
    lines, rest, fs := ScanMeans(parse, Seen("", None, 0), Join(chunks));
  }

  class Scanner {
    var pending: string
    var seenUsage: Option<Usage>
    var outChars: nat

    ghost function Abs(): Seen
      reads this
    {
      Seen(pending, seenUsage, outChars)
    }

    constructor ()
      ensures Abs() == Seen("", None, 0)
    {
      pending, seenUsage, outChars := "", None, 0;
    }

    method Inspect(parse: Parser, chunk: string)
      modifies this
      ensures Abs() == Feed(parse, old(Abs()), chunk)
    {
      ScanIgnoresPending(parse, Abs(), pending + chunk, pending + chunk);
      pending := pending + chunk;
      var nl := NewlineAt(pending);
      while nl < |pending|
        invariant nl == NewlineAt(pending)
        invariant Scan(parse, Abs(), pending) == Feed(parse, old(Abs()), chunk)
        decreases |pending|
      {
        var line := pending[..nl];
        ghost var before := Abs();
        HandleOne(parse, line);
        ScanIgnoresPending(parse, Abs(), before.pending[nl + 1..], before.pending[nl + 1..]);
        pending := pending[nl + 1..];
        nl := NewlineAt(pending);
      }
    }

    method HandleOne(parse: Parser, raw: string)
      modifies this`seenUsage, this`outChars
      ensures Abs() == HandleLine(parse, old(Abs()), raw)
    {
      var line := Trim(raw);
      if !("data:" <= line) {
        return;
      }
      var data := Trim(line[5..]);
      if data == "[DONE]" {
        return;
      }
      var parsed := parse(data);
      if parsed.Some? {
        if parsed.value.usage.Some? {
          seenUsage := parsed.value.usage;
        }
        outChars := outChars + parsed.value.content;
      }
    }
  }
}

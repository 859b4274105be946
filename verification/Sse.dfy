/** The server-sent-events proxy: what a conforming client receives through it, and what it bills. */
module Sse {
  import opened Sums
  import opened Regex
  import opened Costs
  import opened UsageParsing

  // ---- The client: section 9.2.6 of the WHATWG HTML Standard, line by line ----

  // The data lines of an event are kept apart here; the standard joins them with line feeds. The retry field
  // sets a reconnection time only and is ignored with the unknown ones.
  datatype Event = Event(kind: string, data: seq<string>, lastId: string)
  datatype Client = Client(data: seq<string>, kind: string, lastId: string, events: seq<Event>)

  const START := Client([], "", "", [])

  // The field name ends at the first colon; one space after the colon is not part of the value.
  function Name(line: string): string { line[..Until(line, {':'})] }

  function Value(line: string): string {
    var n := Until(line, {':'});
    if n == |line| then ""
    else if n + 1 < |line| && line[n + 1] == ' ' then line[n + 2..]
    else line[n + 1..]
  }

  // What a line says: a blank line, one of the three fields, or nothing.
  datatype Field = Blank | Data(value: string) | Kind(value: string) | Id(value: string) | Ignored

  function Read(line: string): Field {
    if line == "" then Blank
    else if line[0] == ':' then Ignored
    else if Name(line) == "data" then Data(Value(line))
    else if Name(line) == "event" then Kind(Value(line))
    else if Name(line) == "id" && '\0' !in Value(line) then Id(Value(line))
    else Ignored
  }

  function Dispatch(c: Client): Client {
    if c.data == [] then c.(kind := "")
    else
      var kind := if c.kind == "" then "message" else c.kind;
      Client([], "", c.lastId, c.events + [Event(kind, c.data, c.lastId)])
  }

  function Take(c: Client, f: Field): Client {
    match f
    case Blank => Dispatch(c)
    case Data(v) => c.(data := c.data + [v])
    case Kind(v) => c.(kind := v)
    case Id(v) => c.(lastId := v)
    case Ignored => c
  }

  function Feed(c: Client, line: string): Client { Take(c, Read(line)) }

  function FeedAll(c: Client, lines: seq<string>): Client {
    if lines == [] then c else Feed(FeedAll(c, lines[..|lines| - 1]), lines[|lines| - 1])
  }

  function Events(lines: seq<string>): seq<Event> { FeedAll(START, lines).events }

  // ---- The proxy ----

  // unicode.IsSpace
  predicate IsBlank(c: char) {
    || c in {'\t', '\n', '\U{0B}', '\U{0C}', '\r', ' ', '\U{85}', '\U{A0}', '\U{1680}', '\U{2028}', '\U{2029}',
             '\U{202F}', '\U{205F}', '\U{3000}'}
    || '\U{2000}' <= c <= '\U{200A}'
  }

  function TrimLeft(s: string): string {
    if s != "" && IsBlank(s[0]) then TrimLeft(s[1..]) else s
  }

  function TrimRight(s: string): string {
    if s != "" && IsBlank(s[|s| - 1]) then TrimRight(s[..|s| - 1]) else s
  }

  // bytes.TrimSpace
  function Trim(s: string): string { TrimRight(TrimLeft(s)) }

  predicate IsComment(line: string) { Trim(line) != "" && Trim(line)[0] == ':' }

  predicate SaysDone(trimmed: string) { trimmed == "data: [DONE]" }

  predicate IsDone(line: string) { SaysDone(Trim(line)) }

  // strings.Index, with |s| for "not found".
  function Index(s: string, t: string): (n: nat)
    ensures n <= |s|
    ensures n < |s| ==> t <= s[n..]
  {
    if s == "" then 0 else if t <= s then 0 else 1 + Index(s[1..], t)
  }

  predicate Contains(s: string, t: string) { Index(s, t) < |s| }

  // What the proxy writes for a line: nothing for a comment, one line otherwise.
  function Written(line: string, id: string): seq<string> {
    if IsComment(line) then [] else if Trim(line) == "" then [""] else [Sanitize(line, id)]
  }

  function WrittenAll(lines: seq<string>, id: string): seq<string> {
    if lines == [] then [] else WrittenAll(lines[..|lines| - 1], id) + Written(lines[|lines| - 1], id)
  }

  // How many lines there are before the one that says the stream is done.
  function BeforeDone(lines: seq<string>): (n: nat)
    ensures n <= |lines|
    ensures forall i :: 0 <= i < n ==> !IsDone(lines[i])
    ensures n < |lines| ==> IsDone(lines[n])
  {
    if lines == [] || IsDone(lines[0]) then 0 else 1 + BeforeDone(lines[1..])
  }

  // The lines the proxy handles: up to and including that one.
  function Handled(lines: seq<string>): seq<string> {
    var n := BeforeDone(lines);
    if n == |lines| then lines else lines[..n + 1]
  }

  // What the usage capture makes of a line: the decoded text after "data: ".
  function Decoded(line: string, decode: string -> Option<Payload>): Option<Payload> {
    var n := Index(line, "data: ");
    if n == |line| then None else decode(Trim(line[n + 6..]))
  }

  function Heard(line: string, decode: string -> Option<Payload>): Line {
    Line(!IsComment(line) && Trim(line) != "" && Contains(line, "\"usage\""), Decoded(line, decode))
  }

  function HeardAll(lines: seq<string>, decode: string -> Option<Payload>): seq<Line> {
    seq(|lines|, i requires 0 <= i < |lines| => Heard(lines[i], decode))
  }

  /** Where the proxy stops: it handles the lines up to and including the first that, white space aside, reads
      `data: [DONE]`, and all of them if there is none. */
  lemma HandledIs(lines: seq<string>, n: nat)
    requires n <= |lines| && forall i :: 0 <= i < n ==> Trim(lines[i]) != "data: [DONE]"
    requires n < |lines| ==> Trim(lines[n]) == "data: [DONE]"
    ensures BeforeDone(lines) == n
    ensures Handled(lines) == if n == |lines| then lines else lines[..n + 1]
  {
  }

  // Text of white space only.
  predicate AllBlank(s: string) { forall i :: 0 <= i < |s| ==> IsBlank(s[i]) }

  lemma {:induction false} TrimLeftIs(a: string, s: string)
    requires AllBlank(a) && (s == "" || !IsBlank(s[0]))
    ensures TrimLeft(a + s) == s
  {
    if a == "" {
      assert a + s == s;
    } else {
      assert (a + s)[1..] == a[1..] + s;
      TrimLeftIs(a[1..], s);
    }
  }

  lemma {:induction false} TrimRightIs(s: string, b: string)
    requires AllBlank(b) && (s == "" || !IsBlank(s[|s| - 1]))
    ensures TrimRight(s + b) == s
  {
    if b == "" {
      assert s + b == s;
    } else {
      var n := |b| - 1;
      assert (s + b)[..|s| + n] == s + b[..n];
      assert (s + b)[|s| + n] == b[n];
      TrimRightIs(s, b[..n]);
    }
  }

  lemma {:induction false} TrimRightKeepsFirst(s: string)
    requires s != "" && !IsBlank(s[0])
    ensures TrimRight(s) != "" && TrimRight(s)[0] == s[0]
  {
    if IsBlank(s[|s| - 1]) { TrimRightKeepsFirst(s[..|s| - 1]); }
  }

  /** What the first character that is not white space decides: with a colon nothing of the line is written, with any
      other the sanitized line, and a line without one is written as the blank line that ends an event. */
  lemma WrittenByFirstChar(a: string, c: char, rest: string, id: string)
    requires AllBlank(a) && !IsBlank(c)
    ensures
      var line := a + ([c] + rest);
      Written(line, id) == if c == ':' then [] else [Sanitize(line, id)]
    ensures Written(a, id) == [""]
  {
    TrimLeftIs(a, [c] + rest);
    TrimRightKeepsFirst([c] + rest);
    TrimLeftIs(a, "");
    assert a + "" == a;
  }

  lemma {:induction false} IndexIs(s: string, t: string, n: nat)
    requires n < |s| && t <= s[n..] && forall k :: 0 <= k < n ==> !(t <= s[k..])
    ensures Index(s, t) == n
  {
    if n > 0 {
      assert !(t <= s[0..]);
      forall k | 0 <= k < n - 1 ensures !(t <= s[1..][k..]) {
        assert s[1..][k..] == s[k + 1..];
      }
      assert s[1..][n - 1..] == s[n..];
      IndexIs(s[1..], t, n - 1);
    }
  }

  lemma {:induction false} ContainsIff(s: string, t: string)
    ensures Contains(s, t) <==> exists k :: 0 <= k < |s| && t <= s[k..]
  {
    if Contains(s, t) {
      assert t <= s[Index(s, t)..];
    } else if s != "" {
      ContainsIff(s[1..], t);
      forall k | 0 <= k < |s| ensures !(t <= s[k..]) {
        if k > 0 { assert s[1..][k - 1..] == s[k..]; }
      }
    }
  }

  lemma TrimIs(a: string, s: string, b: string)
    requires AllBlank(a) && AllBlank(b) && s != "" && !IsBlank(s[0]) && !IsBlank(s[|s| - 1])
    ensures Trim(a + (s + b)) == s
  {
    TrimLeftIs(a, s + b);
    TrimRightIs(s, b);
  }

  /** What the usage capture hears: of a line that is no comment and has "usage" in it, quotes included, the text
      behind its first `data: ` without the white space around it. */
  lemma HeardIs(before: string, a: string, text: string, b: string, decode: string -> Option<Payload>)
    requires AllBlank(a) && AllBlank(b) && text != "" && !IsBlank(text[0]) && !IsBlank(text[|text| - 1])
    requires
      var line := before + ("data: " + (a + (text + b)));
      forall k :: 0 <= k < |before| ==> !("data: " <= line[k..])
    ensures
      var line := before + ("data: " + (a + (text + b)));
      && Heard(line, decode).payload == decode(text)
      && (Heard(line, decode).mentionsUsage <==>
            !IsComment(line) && exists k :: 0 <= k < |line| && "\"usage\"" <= line[k..])
  {
    hide Trim, Index, AllBlank;
    var line := before + ("data: " + (a + (text + b)));
    assert line[|before|..] == "data: " + (a + (text + b));
    IndexIs(line, "data: ", |before|);
    assert line[|before| + 6..] == a + (text + b);
    TrimIs(a, text, b);
    ContainsIff(line, "\"usage\"");
    if Contains(line, "\"usage\"") { QuotedIsNotBlank(line); }
  }

  // Text with a quote in it is not white space.
  lemma QuotedIsNotBlank(line: string)
    requires Contains(line, "\"usage\"")
    ensures Trim(line) != ""
  {
    var k := Index(line, "\"usage\"");
    assert line[k..][0] == line[k] == '"';
    if Trim(line) == "" { TrimmedAway(line, k); }
  }

  lemma {:induction false} TrimmedAway(s: string, k: nat)
    requires k < |s| && TrimRight(TrimLeft(s)) == ""
    ensures IsBlank(s[k])
  {
    if IsBlank(s[0]) {
      if k > 0 { TrimmedAway(s[1..], k - 1); }
    } else {
      TrimRightKeepsFirst(s);
    }
  }

  lemma WrittenStep(lines: seq<string>, i: nat, id: string)
    requires i < |lines|
    ensures WrittenAll(lines[..i + 1], id) == WrittenAll(lines[..i], id) + Written(lines[i], id)
  {
    assert lines[..i + 1][..i] == lines[..i];
  }

  lemma HeardStep(lines: seq<string>, i: nat, decode: string -> Option<Payload>)
    requires i < |lines|
    ensures
      var line := Heard(lines[i], decode);
      && LastUsage(HeardAll(lines[..i + 1], decode))
         == (if BearsTokens(line) then Some(UsageOf(line.payload.value.usage))
             else LastUsage(HeardAll(lines[..i], decode)))
      && LastCost(HeardAll(lines[..i + 1], decode))
         == (if BearsCost(line) then UpstreamCost(line.payload.value) else LastCost(HeardAll(lines[..i], decode)))
  {
    assert HeardAll(lines[..i + 1], decode)[..i] == HeardAll(lines[..i], decode);
  }

  // The proxy has not stopped before line i; does it stop there?
  lemma DoneStep(lines: seq<string>, i: nat)
    requires i < |lines| && i <= BeforeDone(lines)
    ensures if IsDone(lines[i]) then lines[..i + 1] == Handled(lines) else i + 1 <= BeforeDone(lines)
    ensures IsDone(lines[i]) ==> !IsComment(lines[i]) && Trim(lines[i]) != ""
  {
    DoneIsWritten(lines[i]);
  }

  lemma DoneIsWritten(line: string)
    ensures IsDone(line) ==> !IsComment(line) && Trim(line) != ""
  {
    assert IsDone(line) ==> Trim(line)[0] == 'd';
  }

  /** The loop of handleStreamResponse. `decode` is the JSON decoder. */
  method Proxy(lines: seq<string>, id: string, decode: string -> Option<Payload>)
    returns (out: seq<string>, usage: Option<Usage>, cost: real)
    ensures out == WrittenAll(Handled(lines), id)
    ensures usage == LastUsage(HeardAll(Handled(lines), decode))
    ensures cost == LastCost(HeardAll(Handled(lines), decode))
  {
    var capture := new UsageCapture();
    out := [];
    var i := 0;
    while i < |lines|
      invariant 0 <= i <= BeforeDone(lines)
      invariant out == WrittenAll(lines[..i], id)
      invariant fresh(capture)
      invariant capture.usage == LastUsage(HeardAll(lines[..i], decode))
      invariant capture.upstreamCost == LastCost(HeardAll(lines[..i], decode))
    {
      var line := lines[i];
      var trimmed := Trim(line);
      WrittenStep(lines, i, id);
      HeardStep(lines, i, decode);
      DoneStep(lines, i);
      i := i + 1;
      if trimmed != "" && trimmed[0] == ':' { continue; }
      if trimmed == "" {
        out := out + [""];
        continue;
      }
      if Contains(line, "\"usage\"") {
        capture.ParseFromChunk(Decoded(line, decode));
      }
      out := out + [Sanitize(line, id)];
      if SaysDone(trimmed) { break; }
    }
    assert lines[..i] == Handled(lines);
    usage, cost := capture.usage, capture.upstreamCost;
  }
}

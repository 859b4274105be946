/** A client behind the proxy sees the upstream's events, with their data sanitized and nothing else changed,
    exactly as long as masking leaves each line the kind of line it was. */
module SseRefinement {
  import opened Regex
  import opened Json
  import opened Scan
  import opened MaskTree
  import opened MaskFilter
  import opened Sse

  function MaskData(id: string, data: seq<string>): seq<string> {
    seq(|data|, i requires 0 <= i < |data| => Sanitize(data[i], id))
  }

  function MaskEvent(id: string, e: Event): Event { e.(data := MaskData(id, e.data)) }

  function MaskEvents(id: string, events: seq<Event>): seq<Event> {
    seq(|events|, i requires 0 <= i < |events| => MaskEvent(id, events[i]))
  }

  function MaskClient(id: string, c: Client): Client {
    c.(data := MaskData(id, c.data), events := MaskEvents(id, c.events))
  }

  function MaskField(id: string, f: Field): Field { if f.Data? then Data(Sanitize(f.value, id)) else f }

  // The text after the colon of a line, or none.
  function Raw(line: string): string {
    var n := Until(line, {':'});
    if n == |line| then "" else line[n + 1..]
  }

  // What a client reads of it.
  function Unspaced(v: string): string { if v != "" && v[0] == ' ' then v[1..] else v }

  predicate IsIgnored(s: string) { s != "" && Read(s) == Ignored }

  // The exact test on a line, field by field; OrdinaryLinesAreKept is the test on the line alone, which does not
  // look at what it is sanitized to. Data must not be sanitized to text that starts with a space, unless it is
  // empty or starts with a space before; an event name or id must not change; a line that a client ignores must
  // not be sanitized to a blank line or a field.
  predicate Kept(line: string, id: string) {
    match Read(line)
    case Blank => true
    case Data(_) => Raw(line) == "" || Raw(line)[0] == ' ' || !(" " <= Sanitize(Raw(line), id))
    case Kind(v) => Value(Sanitize(line, id)) == v
    case Id(v) => Value(Sanitize(line, id)) == v
    case Ignored => IsIgnored(Sanitize(line, id))
  }

  // The same for the proxy, which drops comments and takes white space for a blank line.
  predicate Faithful(line: string, id: string) {
    IsComment(line) || (if Trim(line) == "" then line == "" else Kept(line, id))
  }

  // ---- Clients that differ, and fields that do ----

  lemma MaskMore(id: string, data: seq<string>, x: string)
    ensures MaskData(id, data + [x]) == MaskData(id, data) + [Sanitize(x, id)]
  {
  }

  lemma TakeMasked(c: Client, f: Field, id: string)
    ensures Take(MaskClient(id, c), MaskField(id, f)) == MaskClient(id, Take(c, f))
  {
    hide Sanitize;
    match f
    case Data(v) => MaskMore(id, c.data, v);
    case Blank => assert MaskEvents(id, Dispatch(c).events) == Dispatch(MaskClient(id, c)).events;
    case _ =>
  }

  function Text(f: Field): string { if f.Data? || f.Kind? || f.Id? then f.value else "" }

  // A client with data pending, and a kind and an id that neither field gives it.
  function Witness(f: Field, g: Field): Client {
    var x := Text(f) + Text(g) + "x";
    Client([""], x, x, [])
  }

  /** No two different fields leave every client alike. */
  lemma FieldsDiffer(f: Field, g: Field, id: string)
    requires f != g
    ensures Take(MaskClient(id, Witness(f, g)), f) != Take(MaskClient(id, Witness(f, g)), g)
  {
    hide Sanitize;
    var c := MaskClient(id, Witness(f, g));
    assert |c.data| == 1 && |c.events| == 0;
    assert |c.kind| > |Text(f)| && |c.kind| > |Text(g)| && c.lastId == c.kind;
    assert f.Data? ==> Take(c, f).data[1] == f.value;
    assert g.Data? ==> Take(c, g).data[1] == g.value;
    assert |Dispatch(c).events| == 1;
  }

  lemma FieldKeptIff(line: string, written: string, id: string)
    ensures (forall c :: Feed(MaskClient(id, c), written) == MaskClient(id, Feed(c, line)))
            <==> Read(written) == MaskField(id, Read(line))
  {
    hide Sanitize, Read, Take;
    var f, g := Read(written), MaskField(id, Read(line));
    forall c ensures MaskClient(id, Feed(c, line)) == Take(MaskClient(id, c), g) {
      TakeMasked(c, Read(line), id);
    }
    if f == g {
      forall c ensures Feed(MaskClient(id, c), written) == MaskClient(id, Feed(c, line)) {
        assert MaskClient(id, Feed(c, line)) == Take(MaskClient(id, c), g);
      }
    } else {
      FieldsDiffer(f, g, id);
      var c := Witness(f, g);
      assert Feed(MaskClient(id, c), written) != MaskClient(id, Feed(c, line));
    }
  }

  // ---- Masking keeps the name of a field ----

  lemma SplitLine(line: string)
    requires Until(line, {':'}) < |line|
    ensures line == Name(line) + ":" + Raw(line) && ':' !in Name(line)
  {
    UntilStops(line, ':');
    SplitAt(line, Until(line, {':'}));
  }

  lemma SplitAt(s: string, n: nat)
    requires n < |s|
    ensures s == s[..n] + [s[n]] + s[n + 1..]
  {
  }

  lemma {:induction false} UntilStops(s: string, c: char)
    ensures c !in s[..Until(s, {c})]
    ensures Until(s, {c}) < |s| ==> s[Until(s, {c})] == c
  {
    if s != "" && s[0] != c {
      UntilStops(s[1..], c);
      assert s[..Until(s, {c})] == [s[0]] + s[1..][..Until(s[1..], {c})];
    }
  }

  lemma JoinLine(name: string, raw: string)
    requires ':' !in name
    ensures Name(name + ":" + raw) == name && Raw(name + ":" + raw) == raw
    ensures Value(name + ":" + raw) == Unspaced(raw)
  {
    var line := name + ":" + raw;
    assert line == name + (":" + raw);
    UntilConcat(name, ":" + raw, {':'});
    assert line[|name| + 1..] == raw;
    assert raw != "" ==> line[|name| + 2..] == raw[1..] && line[|name| + 1] == raw[0];
  }

  /** A line whose name has no quote or comma keeps it, and the rest is sanitized by itself. */
  lemma NameStays(line: string, id: string)
    requires Inert(Name(line))
    ensures Name(Sanitize(line, id)) == Name(line) && Raw(Sanitize(line, id)) == Sanitize(Raw(line), id)
    ensures Value(line) == Unspaced(Raw(line)) && Value(Sanitize(line, id)) == Unspaced(Sanitize(Raw(line), id))
    ensures line != "" ==> Sanitize(line, id) != "" && (line[0] == ':' <==> Sanitize(line, id)[0] == ':')
  {
    hide Sanitize;
    EmptyStays(id);
    if Until(line, {':'}) < |line| {
      var name, raw := Name(line), Raw(line);
      SplitLine(line);
      SanitizeInert(name + ":", raw, id);
      JoinLine(name, raw);
      JoinLine(name, Sanitize(raw, id));
      assert line[0] == (name + ":")[0] == Sanitize(line, id)[0];
    } else {
      assert line[..|line|] == line && line == line + "";
      SanitizeInert(line, "", id);
      assert line + "" == line;
    }
  }

  lemma EmptyStays(id: string)
    ensures Sanitize("", id) == ""
  {
    NoQuoteStays("", id);
  }

  // ---- The exact condition ----

  lemma UnspacedSanitized(v: string, id: string)
    ensures Unspaced(Sanitize(v, id)) == Sanitize(Unspaced(v), id)
            <==> v == "" || v[0] == ' ' || !(" " <= Sanitize(v, id))
  {
    hide Sanitize;
    if v == "" {
      EmptyStays(id);
    } else if v[0] == ' ' {
      assert v == " " + v[1..];
      SanitizeInert(" ", v[1..], id);
      UnspacedSpace(Sanitize(v[1..], id));
    } else if " " <= Sanitize(v, id) {
      assert |Unspaced(Sanitize(v, id))| < |Sanitize(v, id)|;
    }
  }

  lemma UnspacedSpace(v: string)
    ensures Unspaced(" " + v) == v
  {
  }

  lemma FieldsAreInert(line: string)
    ensures Read(line).Data? ==> Name(line) == "data" && Inert(Name(line))
    ensures Read(line).Kind? ==> Name(line) == "event" && Inert(Name(line))
    ensures Read(line).Id? ==> Name(line) == "id" && Inert(Name(line))
    ensures Read(line).Data? || Read(line).Kind? || Read(line).Id? ==> line != "" && line[0] != ':'
  {
  }

  lemma ReadKeptIff(line: string, id: string)
    requires line != ""
    ensures Read(Sanitize(line, id)) == MaskField(id, Read(line)) <==> Kept(line, id)
  {
    hide Sanitize, Value, Raw;
    FieldsAreInert(line);
    match Read(line)
    case Data(_) =>
      NameStays(line, id);
      UnspacedSanitized(Raw(line), id);
    case Kind(_) => NameStays(line, id);
    case Id(v) => NameStays(line, id);
    case Ignored =>
    case Blank =>
  }

  /** For every line that is not blank: sanitizing it and reading it does to every client what reading it and
      sanitizing its data does, if and only if the line passes the test of its field. */
  lemma FeedMaskedIff(line: string, id: string)
    requires line != ""
    ensures (forall c :: Feed(MaskClient(id, c), Sanitize(line, id)) == MaskClient(id, Feed(c, line)))
            <==> Kept(line, id)
  {
    hide Sanitize, Read, Take, Kept;
    FieldKeptIff(line, Sanitize(line, id), id);
    ReadKeptIff(line, id);
  }

  // Lines that no model id can make fail the test: lines without a quote, and lines that are no field and stay
  // none, because their name has no quote or comma or because of their first character; event names and ids
  // without a quote; data that does not begin with a quote or a comma, as JSON objects and arrays do not.
  lemma OrdinaryLinesAreKept(line: string, id: string)
    requires line != ""
    requires NoQuote(line) || Inert(Name(line)) || line[0] !in {'"', ',', 'd', 'e', 'i'}
    requires Read(line).Kind? || Read(line).Id? || Name(line) == "id" ==> NoQuote(line)
    requires Read(line).Data? && Raw(line) != "" ==> Raw(line)[0] != '"' && Raw(line)[0] != ','
    ensures Kept(line, id)
  {
    hide Sanitize, Value;
    if Read(line).Data? {
      if Raw(line) != "" { FirstCharStays(Raw(line), id); }
    } else if NoQuote(line) {
      NoQuoteStays(line, id);
      ReadIs(line);
    } else if line[0] !in {'"', ',', 'd', 'e', 'i'} {
      FirstCharStays(line, id);
      NoField(line);
      NoField(Sanitize(line, id));
    } else {
      NameStays(line, id);
      assert Read(line).Ignored?;
    }
  }

  lemma ReadIs(line: string)
    ensures Read(line).Kind? || Read(line).Id? ==> Read(line).value == Value(line)
  {
  }

  // ---- Lines the proxy writes, drops or blanks ----

  lemma {:induction false} RightStart(s: string)
    requires s != ""
    ensures if TrimRight(s) == "" then IsBlank(s[0]) else s[0] == TrimRight(s)[0]
  {
    if IsBlank(s[|s| - 1]) && |s| > 1 { RightStart(s[..|s| - 1]); }
  }

  // Trimmed text starts where the line does, unless the line starts with white space.
  lemma TrimStart(line: string)
    requires line != ""
    ensures IsBlank(line[0]) || (Trim(line) != "" && line[0] == Trim(line)[0])
  {
    if !IsBlank(line[0]) { RightStart(line); }
  }

  lemma NoField(line: string)
    requires line != "" && line[0] !in {'d', 'e', 'i'}
    ensures Read(line) == Ignored
  {
    if line[0] != ':' { assert Name(line)[0] == line[0]; }
  }

  // A comment, or white space only.
  lemma UnwrittenIsIgnored(line: string)
    requires line != "" && (IsComment(line) || Trim(line) == "")
    ensures Read(line) == Ignored
  {
    TrimStart(line);
    NoField(line);
  }

  lemma FeedOne(c: Client, line: string)
    ensures FeedAll(c, [line]) == Feed(c, line)
  {
    assert [line][..0] == [];
  }

  lemma WrittenOne(c: Client, line: string, id: string)
    ensures FeedAll(c, Written(line, id))
            == if IsComment(line) then c else if Trim(line) == "" then Feed(c, "") else Feed(c, Sanitize(line, id))
  {
    hide Sanitize, Trim, Feed;
    FeedOne(c, "");
    FeedOne(c, Sanitize(line, id));
  }

  /** What the proxy writes for a line does to every client what the line itself does, data sanitized, if and
      only if the line is a comment, blank, or passes the test of its field; white space is not blank. */
  lemma WrittenIff(line: string, id: string)
    ensures (forall c :: FeedAll(MaskClient(id, c), Written(line, id)) == MaskClient(id, Feed(c, line)))
            <==> Faithful(line, id)
  {
    hide Sanitize, Trim, Feed, Kept, Written, FeedAll;
    forall c ensures FeedAll(MaskClient(id, c), Written(line, id))
                     == if IsComment(line) then MaskClient(id, c)
                        else Feed(MaskClient(id, c), if Trim(line) == "" then "" else Sanitize(line, id)) {
      WrittenOne(MaskClient(id, c), line, id);
    }
    if IsComment(line) {
      CommentIff(line, id);
    } else if Trim(line) == "" {
      BlankIff(line, id);
    } else {
      NotEmpty(line);
      FeedMaskedIff(line, id);
    }
  }

  lemma NotEmpty(line: string)
    requires Trim(line) != ""
    ensures line != ""
  {
  }

  lemma CommentIff(line: string, id: string)
    requires IsComment(line)
    ensures forall c :: MaskClient(id, c) == MaskClient(id, Feed(c, line))
  {
    UnwrittenIsIgnored(line);
  }

  lemma BlankIff(line: string, id: string)
    requires Trim(line) == ""
    ensures (forall c :: Feed(MaskClient(id, c), "") == MaskClient(id, Feed(c, line))) <==> line == ""
  {
    FieldKeptIff(line, "", id);
    if line != "" { UnwrittenIsIgnored(line); }
  }

  // ---- Whole streams ----

  lemma {:induction false} FeedConcat(c: Client, a: seq<string>, b: seq<string>)
    ensures FeedAll(c, a + b) == FeedAll(FeedAll(c, a), b)
  {
    hide Feed;
    if b == [] {
      assert a + b == a;
    } else {
      var n := |b| - 1;
      assert (a + b)[..|a| + n] == a + b[..n];
      FeedConcat(c, a, b[..n]);
    }
  }

  lemma FeedMore(c: Client, lines: seq<string>, line: string)
    ensures FeedAll(c, lines + [line]) == Feed(FeedAll(c, lines), line)
  {
    assert (lines + [line])[..|lines|] == lines;
  }

  lemma {:induction false} WrittenAllMasked(lines: seq<string>, id: string)
    requires forall line :: line in lines ==> Faithful(line, id)
    ensures FeedAll(START, WrittenAll(lines, id)) == MaskClient(id, FeedAll(START, lines))
  {
    hide Feed, Faithful, Written;
    if lines == [] {
      assert MaskClient(id, START) == START;
    } else {
      var n := |lines| - 1;
      WrittenAllMasked(lines[..n], id);
      FeedConcat(START, WrittenAll(lines[..n], id), Written(lines[n], id));
      WrittenIff(lines[n], id);
      assert Faithful(lines[n], id);
    }
  }

  lemma {:induction false} RightHasQuotes(s: string)
    ensures NoQuote(TrimRight(s)) ==> NoQuote(s)
  {
    if s != "" && IsBlank(s[|s| - 1]) { RightHasQuotes(s[..|s| - 1]); }
  }

  lemma {:induction false} LeftHasQuotes(s: string)
    ensures NoQuote(TrimLeft(s)) ==> NoQuote(s)
  {
    if s != "" && IsBlank(s[0]) {
      LeftHasQuotes(s[1..]);
      assert s == [s[0]] + s[1..];
    }
  }

  // The line that says the stream is done is written as it came, and dispatches nothing.
  lemma DoneDispatchesNothing(c: Client, line: string, id: string)
    requires IsDone(line)
    ensures FeedAll(c, Written(line, id)).events == c.events
  {
    hide Sanitize, FeedAll, Written;
    DoneIsWritten(line);
    NotEmpty(line);
    LeftHasQuotes(line);
    RightHasQuotes(TrimLeft(line));
    NoQuoteStays(line, id);
    WrittenOne(c, line, id);
  }

  // Line n is the first to read `data: [DONE]`, white space aside; n is the number of lines if there is none.
  predicate FirstDone(lines: seq<string>, n: nat) {
    && n <= |lines| && (forall i :: 0 <= i < n ==> Trim(lines[i]) != "data: [DONE]")
    && (n < |lines| ==> Trim(lines[n]) == "data: [DONE]")
  }

  /** What a client dispatches from the proxied stream is what it would dispatch from the upstream lines before
      `data: [DONE]`, in the same order, with the same kinds and ids, each data line sanitized. That line itself
      never reaches the client's application: the proxy stops before the blank line that would dispatch it. */
  lemma ProxiedEvents(lines: seq<string>, id: string, n: nat)
    requires FirstDone(lines, n) && forall i :: 0 <= i < n ==> Faithful(lines[i], id)
    ensures Events(WrittenAll(Handled(lines), id)) == MaskEvents(id, Events(lines[..n]))
  {
    HandledIs(lines, n);
    hide Faithful, Feed, FeedAll, Written, BeforeDone, Trim, Sanitize;
    var before := lines[..n];
    WrittenAllMasked(before, id);
    if n < |lines| {
      WrittenStep(lines, n, id);
      FeedConcat(START, WrittenAll(before, id), Written(lines[n], id));
      DoneDispatchesNothing(FeedAll(START, WrittenAll(before, id)), lines[n], id);
    } else {
      assert before == lines;
    }
  }

  /** When the data lines of the upstream are compact JSON with strippable internal members, the client gets
      the compact print of the filtered trees. */
  lemma ProxiedJson(lines: seq<string>, id: string, n: nat, k: nat, j: nat, v: Json)
    requires FirstDone(lines, n) && forall i :: 0 <= i < n ==> Faithful(lines[i], id)
    requires WellFormed(v) && Plain(id) && Internal(v)
    requires k < |Events(lines[..n])| && j < |Events(lines[..n])[k].data|
    requires Events(lines[..n])[k].data[j] == Print(v)
    ensures
      var events := Events(WrittenAll(Handled(lines), id));
      k < |events| && j < |events[k].data| && events[k].data[j] == Print(Mask(INTERNAL, id, v))
  {
    hide Faithful, Events, WrittenAll, Handled, Sanitize, FirstDone;
    ProxiedEvents(lines, id, n);
    SanitizeIsMask(v, id);
  }

  // ---- Text that is sanitized to itself ----

  predicate NoQuote(s: string) { forall i :: 0 <= i < |s| ==> s[i] != '"' }

  lemma NoQuoteNoMatch(p: Pattern, s: string)
    requires NoQuote(s)
    ensures Match(p, s) == 0
  {
    if p.Lead? && s != "" && s[0] == ',' {
      var rest := s[1 + Spaces(s[1..])..];
      assert rest != "" ==> rest[0] in s;
      NoQuoteNoKey(p.field, rest);
    } else {
      NoQuoteNoKey(KeyOf(p), s);
      NoKeyNoMatch(p, s);
    }
  }

  lemma {:induction false} NoQuoteUntouched(p: Pattern, s: string)
    requires NoQuote(s)
    ensures ReplaceAll(p, s) == s
  {
    if s != "" {
      NoQuoteNoMatch(p, s);
      NoQuoteUntouched(p, s[1..]);
    }
  }

  lemma NoQuoteStays(s: string, id: string)
    requires NoQuote(s)
    ensures Sanitize(s, id) == s
  {
    hide ReplaceAll, StripField;
    NoQuoteUntouched(Model(id), s);
    StripNoQuote(s, "provider");
    StripNoQuote(s, "cost");
    StripNoQuote(s, "cost_details");
    StripNoQuote(s, "is_byok");
    SanitizeInSteps(s, id, s, s, s, s);
  }

  lemma StripNoQuote(s: string, f: string)
    requires NoQuote(s)
    ensures StripField(s, f) == s
  {
    NoQuoteUntouched(Lead(f), s);
    NoQuoteUntouched(Trail(f), s);
    NoQuoteUntouched(Bare(f), s);
  }

  lemma FirstCharStays(line: string, id: string)
    requires line != "" && line[0] != '"' && line[0] != ','
    ensures Sanitize(line, id) != "" && Sanitize(line, id)[0] == line[0]
  {
    hide Sanitize;
    SanitizeInert(line[..1], line[1..], id);
    assert line == line[..1] + line[1..];
  }
}

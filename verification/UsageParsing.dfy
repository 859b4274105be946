/** Usage and upstream cost out of a decoded response: the whole body at once, or chunk by chunk. */
module UsageParsing {
  import opened Sums
  import opened Costs

  // The shapes the "cost" field has been seen in. An object without a usd number decodes to usd 0.
  datatype CostField = Absent | Null | Object(usd: real) | Number(value: real) | Other

  // prompt_tokens_details and completion_tokens_details, when they decode.
  datatype Details = NoDetails | Undecodable | Details(tokens: int)

  datatype Block = Block(
    prompt: int, completion: int,
    completionDetails: Details, promptDetails: Details,
    cacheHit: int, cacheRead: int, cached: int,
    cost: CostField, costDetails: Option<real>)

  // A decoded body or chunk: the usage object and the top-level cost fields.
  datatype Payload = Payload(usage: Block, cost: CostField, costDetails: Option<real>)

  function ParseUpstreamCost(cost: CostField, details: Option<real>): real {
    if cost.Object? && cost.usd > 0.0 then cost.usd
    else if cost.Number? && cost.value > 0.0 then cost.value
    else if details.Some? && details.value > 0.0 then details.value
    else 0.0
  }

  // Nested cost first, top-level cost as the fallback.
  function UpstreamCost(p: Payload): real {
    var nested := ParseUpstreamCost(p.usage.cost, p.usage.costDetails);
    if nested == 0.0 then ParseUpstreamCost(p.cost, p.costDetails) else nested
  }

  function ParseCacheReadTokens(hit: int, anthropicRead: int, cachedTop: int, promptDetails: Details): int {
    if hit != 0 then hit
    else if anthropicRead != 0 then anthropicRead
    else if cachedTop != 0 then cachedTop
    else if promptDetails.Details? then promptDetails.tokens else 0
  }

  function UsageOf(b: Block): Usage {
    Usage(b.prompt, b.completion, if b.completionDetails.Details? then b.completionDetails.tokens else 0,
          ParseCacheReadTokens(b.cacheHit, b.cacheRead, b.cached, b.promptDetails))
  }

  // The first entry that is not zero.
  predicate IsFirstNonZero(n: int, entries: seq<int>) {
    if n == 0 then forall i :: 0 <= i < |entries| ==> entries[i] == 0
    else exists i :: 0 <= i < |entries| && entries[i] == n && forall j :: 0 <= j < i ==> entries[j] == 0
  }

  // The first amount that is positive.
  predicate IsFirstPositive(x: real, amounts: seq<real>) {
    if x == 0.0 then forall i :: 0 <= i < |amounts| ==> amounts[i] <= 0.0
    else x > 0.0 && exists i :: 0 <= i < |amounts| && amounts[i] == x && forall j :: 0 <= j < i ==> amounts[j] <= 0.0
  }

  // The number in a cost field.
  function InField(cost: CostField): real {
    match cost case Object(usd) => usd case Number(value) => value case _ => 0.0
  }

  function InDetails(details: Option<real>): real { if details.Some? then details.value else 0.0 }

  function Tokens(details: Details): int { if details.Details? then details.tokens else 0 }

  /** The order of preference. Cached tokens: the cache hits, then the cache reads, then the cached tokens at the top,
      then those in the prompt details, whichever is not zero first. The upstream cost: the cost field of the usage,
      its details, the cost field at the top, its details, whichever is positive first. Prompt, completion and
      reasoning tokens are taken as they are. */
  lemma FirstReportedCounts(p: Payload)
    ensures
      var b, u := p.usage, UsageOf(p.usage);
      && u.prompt == b.prompt && u.completion == b.completion && u.reasoning == Tokens(b.completionDetails)
      && IsFirstNonZero(u.cacheRead, [b.cacheHit, b.cacheRead, b.cached, Tokens(b.promptDetails)])
    ensures IsFirstPositive(UpstreamCost(p), [InField(p.usage.cost), InDetails(p.usage.costDetails),
                                              InField(p.cost), InDetails(p.costDetails)])
  {
    var b := p.usage;
    var entries := [b.cacheHit, b.cacheRead, b.cached, Tokens(b.promptDetails)];
    assert entries[0] == b.cacheHit && entries[1] == b.cacheRead && entries[2] == b.cached;
    assert entries[3] == Tokens(b.promptDetails);
    var amounts := [InField(b.cost), InDetails(b.costDetails), InField(p.cost), InDetails(p.costDetails)];
    assert amounts[0] == InField(b.cost) && amounts[1] == InDetails(b.costDetails);
    assert amounts[2] == InField(p.cost) && amounts[3] == InDetails(p.costDetails);
  }

  // parseUsage on a body, undecodable or not.
  function ParseUsage(body: Option<Payload>): (Option<Usage>, real) {
    if body.None? then (None, 0.0)
    else if body.value.usage.prompt == 0 && body.value.usage.completion == 0 then (None, UpstreamCost(body.value))
    else (Some(UsageOf(body.value.usage)), UpstreamCost(body.value))
  }

  // One line of the stream: whether it mentions "usage" at all, and what follows its "data: ", decoded.
  datatype Line = Line(mentionsUsage: bool, payload: Option<Payload>)

  predicate BearsTokens(l: Line) {
    l.mentionsUsage && l.payload.Some? && (l.payload.value.usage.prompt > 0 || l.payload.value.usage.completion > 0)
  }

  predicate BearsCost(l: Line) {
    l.mentionsUsage && l.payload.Some? && UpstreamCost(l.payload.value) > 0.0
  }

  // The last token-bearing line decides the usage, the last cost-bearing line the cost.
  function LastUsage(lines: seq<Line>): Option<Usage> {
    if lines == [] then None
    else
      var n := |lines| - 1;
      if BearsTokens(lines[n]) then Some(UsageOf(lines[n].payload.value.usage)) else LastUsage(lines[..n])
  }

  function LastCost(lines: seq<Line>): real {
    if lines == [] then 0.0
    else
      var n := |lines| - 1;
      if BearsCost(lines[n]) then UpstreamCost(lines[n].payload.value) else LastCost(lines[..n])
  }

  class UsageCapture {
    var usage: Option<Usage>
    var upstreamCost: real

    constructor ()
      ensures usage == LastUsage([]) && upstreamCost == LastCost([])
    {
      usage, upstreamCost := None, 0.0;
    }

    // ParseFromChunk, given the decoded chunk: each field is overwritten only by a chunk that carries it.
    method ParseFromChunk(payload: Option<Payload>)
      modifies this
      ensures upstreamCost
              == if payload.Some? && UpstreamCost(payload.value) > 0.0 then UpstreamCost(payload.value)
                 else old(upstreamCost)
      ensures usage
              == if payload.Some? && (payload.value.usage.prompt > 0 || payload.value.usage.completion > 0)
                 then Some(UsageOf(payload.value.usage)) else old(usage)
    {
      if payload.None? { return; }
      var chunk := payload.value;
      var upstream := ParseUpstreamCost(chunk.usage.cost, chunk.usage.costDetails);
      if upstream == 0.0 {
        upstream := ParseUpstreamCost(chunk.cost, chunk.costDetails);
      }
      if upstream > 0.0 {
        upstreamCost := upstream;
      }
      if chunk.usage.prompt > 0 || chunk.usage.completion > 0 {
        usage := Some(UsageOf(chunk.usage));
      }
    }
  }

  /** The capture of a whole stream is the last-writer-wins fold of its lines. */
  method CaptureStream(lines: seq<Line>) returns (usage: Option<Usage>, cost: real)
    ensures usage == LastUsage(lines) && cost == LastCost(lines)
  {
    var capture := new UsageCapture();
    for i := 0 to |lines|
      invariant capture.usage == LastUsage(lines[..i]) && capture.upstreamCost == LastCost(lines[..i])
      invariant fresh(capture)
    {
      assert lines[..i + 1][..i] == lines[..i];
      if lines[i].mentionsUsage {
        capture.ParseFromChunk(lines[i].payload);
      }
    }
    assert lines[..|lines|] == lines;
    return capture.usage, capture.upstreamCost;
  }

  /** What the fold means: the usage is that of the line no later token-bearing line follows. */
  lemma {:induction false} LastUsageIsLast(lines: seq<Line>, i: nat)
    requires i < |lines| && BearsTokens(lines[i])
    requires forall j :: i < j < |lines| ==> !BearsTokens(lines[j])
    ensures LastUsage(lines) == Some(UsageOf(lines[i].payload.value.usage))
  {
    var n := |lines| - 1;
    if i < n { LastUsageIsLast(lines[..n], i); }
  }

  lemma {:induction false} LastCostIsLast(lines: seq<Line>, i: nat)
    requires i < |lines| && BearsCost(lines[i])
    requires forall j :: i < j < |lines| ==> !BearsCost(lines[j])
    ensures LastCost(lines) == UpstreamCost(lines[i].payload.value)
  {
    var n := |lines| - 1;
    if i < n { LastCostIsLast(lines[..n], i); }
  }

  lemma {:induction false} NoTokensNoUsage(lines: seq<Line>)
    requires forall l :: l in lines ==> !BearsTokens(l)
    ensures LastUsage(lines) == None
  {
    if lines != [] { NoTokensNoUsage(lines[..|lines| - 1]); }
  }

  lemma {:induction false} NoCostNoCharge(lines: seq<Line>)
    requires forall l :: l in lines ==> !BearsCost(l)
    ensures LastCost(lines) == 0.0
  {
    if lines != [] { NoCostNoCharge(lines[..|lines| - 1]); }
  }

  lemma CostIsNeverNegative(p: Payload)
    ensures UpstreamCost(p) >= 0.0
  {
  }

  // The payload sits on line i, which mentions usage; no other line bears tokens or cost.
  predicate OnlyLine(lines: seq<Line>, i: nat, p: Payload) {
    && i < |lines| && lines[i] == Line(true, Some(p))
    && forall j :: 0 <= j < |lines| && j != i ==> !BearsTokens(lines[j]) && !BearsCost(lines[j])
  }

  /** Streaming and non-streaming agree on usage exactly when the two ways of asking "are there tokens" agree:
      some count is positive, or both are zero. The upstream cost agrees always. */
  lemma StreamAgreesIff(lines: seq<Line>, i: nat, p: Payload)
    requires OnlyLine(lines, i, p)
    ensures LastCost(lines) == ParseUsage(Some(p)).1
    ensures LastUsage(lines) == ParseUsage(Some(p)).0
            <==> (p.usage.prompt > 0 || p.usage.completion > 0 || (p.usage.prompt == 0 && p.usage.completion == 0))
  {
    if BearsTokens(lines[i]) {
      LastUsageIsLast(lines, i);
    } else {
      NoTokensNoUsage(lines);
    }
    if BearsCost(lines[i]) {
      LastCostIsLast(lines, i);
    } else {
      CostIsNeverNegative(p);
      NoCostNoCharge(lines);
    }
  }

  /** Hence they bill alike: for non-negative token counts and every combination of field shapes, charge,
      reference cost and market cost come out the same. */
  lemma StreamBillsAlike(lines: seq<Line>, i: nat, p: Payload, price: ModelPrice)
    requires OnlyLine(lines, i, p) && p.usage.prompt >= 0 && p.usage.completion >= 0
    ensures (LastUsage(lines), LastCost(lines)) == ParseUsage(Some(p))
    ensures
      var usage := ParseUsage(Some(p)).0;
      && ActualCost(price, LastUsage(lines)) == ActualCost(price, usage)
      && RefCost(price, LastUsage(lines)) == RefCost(price, usage)
      && MarketCost(price, LastUsage(lines)) == MarketCost(price, usage)
  {
    StreamAgreesIff(lines, i, p);
  }
}

/** The regular expressions of the response masking, matched on characters, and ReplaceAll over them. */
module Regex {

  // One pass: the three shapes in which stripField removes a member, and the model rewrite.
  datatype Pattern = Lead(field: string) | Trail(field: string) | Bare(field: string) | Model(id: string)

  // \s
  predicate IsSpace(c: char) { c == ' ' || c == '\t' || c == '\n' || c == '\r' || c == '\U{C}' }

  predicate IsDigit(c: char) { '0' <= c <= '9' }

  // \s*
  function Spaces(s: string): (n: nat)
    ensures n <= |s|
  {
    if s != "" && IsSpace(s[0]) then 1 + Spaces(s[1..]) else 0
  }

  // \d*
  function Digits(s: string): (n: nat)
    ensures n <= |s|
  {
    if s != "" && IsDigit(s[0]) then 1 + Digits(s[1..]) else 0
  }

  // Characters before the first one in `stop`.
  function Until(s: string, stop: set<char>): (n: nat)
    ensures n <= |s|
  {
    if s == "" || s[0] in stop then 0 else 1 + Until(s[1..], stop)
  }

  // The matchers return the length of the match at the start of s, or 0 for none.

  // \d+(?:\.\d+)?
  function MatchUnsigned(s: string): (n: nat)
    ensures n <= |s|
  {
    var d := Digits(s);
    if d == 0 then 0
    else if d < |s| && s[d] == '.' && Digits(s[d + 1..]) > 0 then d + 1 + Digits(s[d + 1..])
    else d
  }

  // -?\d+(?:\.\d+)?
  function MatchNumber(s: string): (n: nat)
    ensures n <= |s|
  {
    if s != "" && s[0] == '-' then (if MatchUnsigned(s[1..]) == 0 then 0 else 1 + MatchUnsigned(s[1..]))
    else MatchUnsigned(s)
  }

  // "[^"]*"
  function MatchString(s: string): (n: nat)
    ensures n <= |s|
  {
    if s == "" || s[0] != '"' then 0
    else
      var n := Until(s[1..], {'"'});
      if 1 + n < |s| then n + 2 else 0
  }

  // true|false|null
  function MatchWord(s: string): (n: nat)
    ensures n <= |s|
  {
    if "true" <= s then 4 else if "false" <= s then 5 else if "null" <= s then 4 else 0
  }

  // \{[^{}]*\}
  function MatchFlat(s: string): (n: nat)
    ensures n <= |s|
  {
    if s == "" || s[0] != '{' then 0
    else
      var n := Until(s[1..], {'{', '}'});
      if 1 + n < |s| && s[1 + n] == '}' then n + 2 else 0
  }

  // stripValue: the alternatives start with different characters, so their order does not matter.
  function MatchValue(s: string): (n: nat)
    ensures n <= |s|
  {
    if MatchNumber(s) > 0 then MatchNumber(s)
    else if MatchString(s) > 0 then MatchString(s)
    else if MatchWord(s) > 0 then MatchWord(s)
    else MatchFlat(s)
  }

  function Quoted(s: string): string { "\"" + s + "\"" }

  // "field"\s*:\s*
  function MatchKey(field: string, s: string): (n: nat)
    ensures n <= |s|
  {
    if !(Quoted(field) <= s) then 0
    else
      var a := |Quoted(field)| + Spaces(s[|Quoted(field)|..]);
      if a < |s| && s[a] == ':' then a + 1 + Spaces(s[a + 1..]) else 0
  }

  // "field"\s*:\s*<value>
  function MatchMember(field: string, s: string): (n: nat)
    ensures n <= |s|
  {
    var k := MatchKey(field, s);
    if k == 0 || MatchValue(s[k..]) == 0 then 0 else k + MatchValue(s[k..])
  }

  function Match(p: Pattern, s: string): (n: nat)
    ensures n <= |s|
  {
    match p
    case Lead(field) =>
      if s == "" || s[0] != ',' then 0
      else
        var a := 1 + Spaces(s[1..]);
        if MatchMember(field, s[a..]) == 0 then 0 else a + MatchMember(field, s[a..])
    case Trail(field) =>
      var n := MatchMember(field, s);
      if n == 0 || n == |s| || s[n] != ',' then 0 else n + 1 + Spaces(s[n + 1..])
    case Bare(field) => MatchMember(field, s)
    case Model(_) =>
      var k := MatchKey("model", s);
      if k == 0 || MatchString(s[k..]) == 0 then 0 else k + MatchString(s[k..])
  }

  function Replacement(p: Pattern): string {
    match p
    case Model(id) => "\"model\":" + Quoted(id)
    case _ => ""
  }

  // ReplaceAll: leftmost matches, none overlapping.
  function ReplaceAll(p: Pattern, s: string): string
    decreases |s|
  {
    if s == "" then ""
    else
      var n := Match(p, s);
      if n > 0 then Replacement(p) + ReplaceAll(p, s[n..]) else [s[0]] + ReplaceAll(p, s[1..])
  }

  function StripField(s: string, field: string): string {
    ReplaceAll(Bare(field), ReplaceAll(Trail(field), ReplaceAll(Lead(field), s)))
  }

  // SanitizeResponseBody
  function Sanitize(s: string, modelId: string): string {
    var d := ReplaceAll(Model(modelId), s);
    StripField(StripField(StripField(StripField(d, "provider"), "cost"), "cost_details"), "is_byok")
  }

  // ---- Where no pass can match ----

  // Every match starts with a quote, or for Lead with a comma.
  lemma MatchStart(p: Pattern, s: string)
    requires s != "" && s[0] != '"' && s[0] != ','
    ensures Match(p, s) == 0
  {
  }

  lemma Emit(p: Pattern, c: char, rest: string)
    requires Match(p, [c] + rest) == 0
    ensures ReplaceAll(p, [c] + rest) == [c] + ReplaceAll(p, rest)
  {
    assert ([c] + rest)[1..] == rest;
  }

  predicate Inert(s: string) { forall i :: 0 <= i < |s| ==> s[i] != '"' && s[i] != ',' }

  /** Text without quotes and commas goes through every pass unchanged. */
  lemma {:induction false} SkipInert(p: Pattern, s: string, rest: string)
    requires Inert(s)
    ensures ReplaceAll(p, s + rest) == s + ReplaceAll(p, rest)
  {
    if s == "" {
      assert s + rest == rest;
    } else {
      var c, tail := s[0], s[1..];
      SkipInert(p, tail, rest);
      MatchStart(p, [c] + (tail + rest));
      Emit(p, c, tail + rest);
      Reassociate(c, tail, rest);
      Reassociate(c, tail, ReplaceAll(p, rest));
      assert s == [c] + tail;
    }
  }

  lemma Reassociate(c: char, tail: string, rest: string)
    ensures [c] + (tail + rest) == ([c] + tail) + rest
  {
  }

  lemma SanitizeInert(s: string, rest: string, modelId: string)
    requires Inert(s)
    ensures Sanitize(s + rest, modelId) == s + Sanitize(rest, modelId)
  {
    var t := ReplaceAll(Model(modelId), rest);
    SkipInert(Model(modelId), s, rest);
    StripInert(s, t, "provider");
    StripInert(s, StripField(t, "provider"), "cost");
    StripInert(s, StripField(StripField(t, "provider"), "cost"), "cost_details");
    StripInert(s, StripField(StripField(StripField(t, "provider"), "cost"), "cost_details"), "is_byok");
  }

  lemma StripInert(s: string, rest: string, field: string)
    requires Inert(s)
    ensures StripField(s + rest, field) == s + StripField(rest, field)
  {
    var a := ReplaceAll(Lead(field), rest);
    SkipInert(Lead(field), s, rest);
    SkipInert(Trail(field), s, a);
    SkipInert(Bare(field), s, ReplaceAll(Trail(field), a));
  }
}

/** Lines on which the proxied events differ from the upstream's, one for each clause of the exact condition. */
module SseEdges {
  import opened Regex
  import opened Scan
  import opened Masking
  import opened MaskFilter
  import opened Sse
  import opened SseRefinement

  // A member the masking removes, as it may stand outside any object.
  const MEMBER := "\"provider\":null"

  // A pass that is not about this field, or needs a comma, goes over it.
  lemma PassesOver(p: Pattern, rest: string)
    requires IsName(KeyOf(p)) && (p.Model? || p.Lead? || p.field != "provider") && Inert(rest)
    ensures ReplaceAll(p, MEMBER + rest) == MEMBER + rest
  {
    hide ReplaceAll;
    var tail := ":" + ("null" + rest);
    assert MEMBER + rest == Quoted("provider") + tail;
    if KeyOf(p) == "provider" {
      assert Match(p, Quoted("provider") + tail) == 0;
    } else {
      OtherKey(KeyOf(p), "provider", tail);
      NoKeyNoMatch(p, Quoted("provider") + tail);
    }
    SkipString(p, "provider", tail);
    PassesInert(p, tail);
  }

  lemma PassesInert(p: Pattern, s: string)
    requires Inert(s)
    ensures ReplaceAll(p, s) == s
  {
    SkipInert(p, s, "");
    assert s + "" == s;
  }

  lemma NullIsMatched(rest: string)
    ensures MatchMember("provider", MEMBER + rest) == |MEMBER|
  {
    hide MatchKey, MatchValue;
    var tail := "null" + rest;
    assert MEMBER + rest == Quoted("provider") + (":" + tail);
    KeyIsHit("provider", tail);
    NullIsValue(rest);
    assert (MEMBER + rest)[|MEMBER| - 4..] == tail;
  }

  lemma NullIsValue(rest: string)
    ensures MatchValue("null" + rest) == 4
  {
    var s := "null" + rest;
    assert s[0] == 'n' && "null" <= s;
  }

  lemma TrailPassesOver(rest: string)
    requires Inert(rest)
    ensures ReplaceAll(Trail("provider"), MEMBER + rest) == MEMBER + rest
  {
    hide ReplaceAll, MatchMember;
    var p, tail := Trail("provider"), ":" + ("null" + rest);
    NullIsMatched(rest);
    assert rest != "" ==> (MEMBER + rest)[|MEMBER|] == rest[0];
    assert Match(p, MEMBER + rest) == 0;
    hide Match;
    assert MEMBER + rest == Quoted("provider") + tail;
    SkipString(p, "provider", tail);
    PassesInert(p, tail);
  }

  lemma BareCuts(rest: string)
    requires Inert(rest)
    ensures ReplaceAll(Bare("provider"), MEMBER + rest) == rest
  {
    hide ReplaceAll, MatchMember;
    var p := Bare("provider");
    NullIsMatched(rest);
    TakeMatch(p, MEMBER, rest);
    PassesInert(p, rest);
  }

  // Its own field strips it.
  lemma StripsIt(rest: string)
    requires Inert(rest)
    ensures StripField(MEMBER + rest, "provider") == rest
  {
    hide ReplaceAll;
    PassesOver(Lead("provider"), rest);
    TrailPassesOver(rest);
    BareCuts(rest);
  }

  /** A removed member outside any object leaves what follows it, be it nothing. */
  lemma MemberIsCut(rest: string, id: string)
    requires Inert(rest)
    ensures Sanitize(MEMBER + rest, id) == rest
  {
    hide StripField;
    PassesOver(Model(id), rest);
    StripsIt(rest);
    StripsInert(rest, "cost");
    StripsInert(rest, "cost_details");
    StripsInert(rest, "is_byok");
    SanitizeInSteps(MEMBER + rest, id, MEMBER + rest, rest, rest, rest);
  }

  lemma StripsInert(s: string, f: string)
    requires Inert(s)
    ensures StripField(s, f) == s
  {
    PassesInert(Lead(f), s);
    PassesInert(Trail(f), s);
    PassesInert(Bare(f), s);
  }

  // ---- Events of short streams ----

  lemma FeedFour(w: string, x: string, y: string, z: string)
    ensures FeedAll(START, [w, x, y, z]) == Feed(Feed(Feed(Feed(START, w), x), y), z)
  {
    hide Feed;
    FeedOne(START, w);
    FeedMore(START, [w], x);
    FeedMore(START, [w, x], y);
    FeedMore(START, [w, x, y], z);
    assert [w] + [x] == [w, x] && [w, x] + [y] == [w, x, y] && [w, x, y] + [z] == [w, x, y, z];
  }

  lemma DataSpaced(c: Client, v: string)
    ensures Feed(c, "data: " + v) == c.(data := c.data + [v])
  {
    var line := "data: " + v;
    assert line == "data" + ":" + (" " + v);
    JoinLine("data", " " + v);
    UnspacedSpace(v);
    assert line[0] == 'd';
  }

  lemma EventSpaced(c: Client, v: string)
    ensures Feed(c, "event: " + v) == c.(kind := v)
  {
    var line := "event: " + v;
    assert line == "event" + ":" + (" " + v);
    JoinLine("event", " " + v);
    UnspacedSpace(v);
    assert line[0] == 'e' && Name(line)[0] == 'e';
  }

  lemma OneEvent(ignored: string, a: string, b: string)
    requires Read(ignored) == Ignored
    ensures Events(["data: " + a, ignored, "data: " + b, ""]) == [Event("message", [a, b], "")]
  {
    hide Feed;
    FeedFour("data: " + a, ignored, "data: " + b, "");
    DataSpaced(START, a);
    assert START.data + [a] == [a] && [a] + [b] == [a, b];
    IgnoredKeeps(Client([a], "", "", []), ignored);
    DataSpaced(Client([a], "", "", []), b);
    BlankDispatches(Client([a, b], "", "", []));
  }

  lemma IgnoredKeeps(c: Client, line: string)
    requires Read(line) == Ignored
    ensures Feed(c, line) == c
  {
  }

  lemma BlankDispatches(c: Client)
    requires c.data != []
    ensures Feed(c, "") == Client([], "", c.lastId, c.events + [
      Event(if c.kind == "" then "message" else c.kind, c.data, c.lastId)])
  {
  }

  lemma TwoEvents(a: string, b: string)
    ensures Events(["data: " + a, "", "data: " + b, ""]) == [Event("message", [a], ""), Event("message", [b], "")]
  {
    hide Feed;
    FeedFour("data: " + a, "", "data: " + b, "");
    DataSpaced(START, a);
    assert START.data + [a] == [a] && [] + [b] == [b];
    BlankDispatches(Client([a], "", "", []));
    var first := [Event("message", [a], "")];
    assert [] + first == first;
    DataSpaced(Client([], "", "", first), b);
    BlankDispatches(Client([b], "", "", first));
  }

  // What the proxy makes of two data lines with a line between them, and the blank line at the end.
  function Around(a: string, line: string, b: string, id: string): seq<string> {
    ["data: " + Sanitize(a, id)] + Written(line, id) + ["data: " + Sanitize(b, id), ""]
  }

  // An ignored line that is written as a blank one splits the event around it.
  lemma SplitsEvent(a: string, line: string, b: string, id: string)
    requires Read(line) == Ignored && Written(line, id) == [""]
    ensures Events(["data: " + a, line, "data: " + b, ""]) == [Event("message", [a, b], "")]
    ensures Events(Around(a, line, b, id))
            == [Event("message", [Sanitize(a, id)], ""), Event("message", [Sanitize(b, id)], "")]
  {
    hide Sanitize, Written, Events, Read;
    OneEvent(line, a, b);
    TwoEvents(Sanitize(a, id), Sanitize(b, id));
    assert Around(a, line, b, id) == ["data: " + Sanitize(a, id), "", "data: " + Sanitize(b, id), ""];
  }

  lemma SpacesAreBlank(n: nat, spaces: string)
    requires |spaces| == n && forall i :: 0 <= i < n ==> spaces[i] == ' '
    ensures Trim(spaces) == ""
  {
    if n > 0 { SpacesAreBlank(n - 1, spaces[1..]); }
  }

  /** White space: a line of spaces between two data lines splits their event, for the client of the proxy
      only. */
  lemma BlanksSplitEvents(spaces: string, a: string, b: string, id: string)
    requires spaces != "" && forall i :: 0 <= i < |spaces| ==> spaces[i] == ' '
    ensures Events(["data: " + a, spaces, "data: " + b, ""]) == [Event("message", [a, b], "")]
    ensures Events(Around(a, spaces, b, id))
            == [Event("message", [Sanitize(a, id)], ""), Event("message", [Sanitize(b, id)], "")]
    ensures !Faithful(spaces, id)
  {
    hide Sanitize, Events, Around;
    SpacesAreBlank(|spaces|, spaces);
    NoField(spaces);
    SplitsEvent(a, spaces, b, id);
  }

  lemma MemberIsTrimmed()
    ensures Trim(MEMBER) == MEMBER
  {
    assert MEMBER[0] == '"' && MEMBER[|MEMBER| - 1] == 'l';
  }

  /** A line that clients ignore, but that is nothing but a removed member, is written as a blank line and
      splits the event in the same way. */
  lemma ErasedLineSplitsEvents(a: string, b: string, id: string)
    ensures Events(["data: " + a, MEMBER, "data: " + b, ""]) == [Event("message", [a, b], "")]
    ensures Events(Around(a, MEMBER, b, id))
            == [Event("message", [Sanitize(a, id)], ""), Event("message", [Sanitize(b, id)], "")]
    ensures !Faithful(MEMBER, id)
  {
    hide Sanitize, Events, Around, Trim;
    MemberIsTrimmed();
    assert MEMBER[0] == '"' && MEMBER + "" == MEMBER;
    MemberIsCut("", id);
    NoField(MEMBER);
    SplitsEvent(a, MEMBER, b, id);
  }

  /** An event name that is a removed member is lost, and the event becomes a message. */
  lemma EventNameIsLost(c: Client, id: string)
    requires c.data != []
    ensures
      var line := "event: " + MEMBER;
      && Sanitize(line, id) == "event: "
      && Feed(Feed(c, line), "").events == c.events + [Event(MEMBER, c.data, c.lastId)]
      && Feed(Feed(c, Sanitize(line, id)), "").events == c.events + [Event("message", c.data, c.lastId)]
      && !Kept(line, id)
  {
    hide Sanitize, Feed;
    var line := "event: " + MEMBER;
    assert MEMBER + "" == MEMBER && "event: " + "" == "event: ";
    SanitizeInert("event: ", MEMBER, id);
    MemberIsCut("", id);
    EventSpaced(c, MEMBER);
    EventSpaced(c, "");
    BlankDispatches(c.(kind := MEMBER));
    BlankDispatches(c.(kind := ""));
    NotKept(line, id, c);
  }

  // A client that tells the difference.
  lemma NotKept(line: string, id: string, c: Client)
    requires line != "" && Feed(c, Sanitize(line, id)).kind != Feed(c, line).kind
    ensures !Kept(line, id)
  {
    hide Sanitize, Kept, Feed;
    FeedMaskedIff(line, id);
    KindOnly(c, line, id);
    KindOnly(c, Sanitize(line, id), id);
    assert Feed(MaskClient(id, c), Sanitize(line, id)) != MaskClient(id, Feed(c, line));
  }

  lemma KindOnly(c: Client, line: string, id: string)
    ensures Feed(MaskClient(id, c), line).kind == Feed(c, line).kind
  {
  }

  /** Data written without a space after the colon: when a member at its very start is removed, a space that
      followed the member is taken for that space and is lost as well. */
  lemma LeadingSpaceIsLost(c: Client, v: string, id: string)
    requires Inert(v)
    ensures
      var line := "data:" + (MEMBER + (" " + v));
      && Feed(c, line).data == c.data + [MEMBER + (" " + v)]
      && Sanitize(MEMBER + (" " + v), id) == " " + v
      && Feed(c, Sanitize(line, id)).data == c.data + [v]
      && !Kept(line, id)
  {
    hide Sanitize;
    var text := MEMBER + (" " + v);
    var line := "data:" + text;
    SanitizeInert("data:", text, id);
    MemberIsCut(" " + v, id);
    assert text[0] == '"';
    DataTight(c, text);
    hide Feed, Read, Raw;
    DataSpaced(c, v);
    assert "data:" + (" " + v) == "data: " + v;
  }

  lemma DataTight(c: Client, v: string)
    requires v != "" && v[0] != ' '
    ensures Feed(c, "data:" + v) == c.(data := c.data + [v])
    ensures Read("data:" + v) == Data(v) && Raw("data:" + v) == v
  {
    var line := "data:" + v;
    assert line == "data" + ":" + v;
    JoinLine("data", v);
    assert line[0] == 'd';
  }
}

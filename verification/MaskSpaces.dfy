/** Masking tolerates white space: a member is found whatever spaces stand around its colon, after the comma before it
    and after the comma behind it, and inside a flat object, and these spaces go with it. */
module MaskSpaces {
  import opened Regex
  import opened Json
  import opened Masking

  // Text of the white space \s stands for.
  predicate AllSpaces(s: string) { forall i :: 0 <= i < |s| ==> s[i] in {' ', '\t', '\n', '\r', '\U{C}'} }

  predicate StartsSolid(s: string) { s == "" || s[0] !in {' ', '\t', '\n', '\r', '\U{C}'} }

  lemma {:induction false} SpacesAre(a: string, rest: string)
    requires AllSpaces(a) && StartsSolid(rest)
    ensures Spaces(a + rest) == |a|
  {
    if a == "" {
      assert a + rest == rest;
    } else {
      assert (a + rest)[1..] == a[1..] + rest;
      SpacesAre(a[1..], rest);
    }
  }

  // "f" : value, with white space on both sides of the colon.
  function Spaced(f: string, a: string, b: string, value: string): string { Quoted(f) + (a + (":" + (b + value))) }

  // Text that is matched whole as a value, with `rest` behind it.
  predicate IsValue(value: string, rest: string) {
    value != "" && StartsSolid(value) && MatchValue(value + rest) == |value|
  }

  lemma SpacedKeyIsHit(f: string, a: string, b: string, rest: string)
    requires AllSpaces(a) && AllSpaces(b) && rest != "" && StartsSolid(rest)
    ensures MatchKey(f, Quoted(f) + (a + (":" + (b + rest)))) == |Quoted(f) + (a + (":" + b))|
  {
    var tail := ":" + (b + rest);
    var s := Quoted(f) + (a + tail);
    assert s[|Quoted(f)|..] == a + tail;
    SpacesAre(a, tail);
    var n := |Quoted(f)| + |a|;
    assert s[n..] == tail && s[n] == tail[0];
    assert s[n + 1..] == b + rest;
    SpacesAre(b, rest);
  }

  lemma SpacedReassociates(f: string, a: string, b: string, value: string, rest: string)
    ensures Spaced(f, a, b, value) + rest == Quoted(f) + (a + (":" + (b + (value + rest))))
    ensures |Spaced(f, a, b, value)| == |Quoted(f) + (a + (":" + b))| + |value|
    ensures (Spaced(f, a, b, value) + rest)[|Quoted(f) + (a + (":" + b))|..] == value + rest
  {
    assert Spaced(f, a, b, value) + rest == (Quoted(f) + (a + (":" + b))) + (value + rest);
  }

  lemma SpacedMemberIsMatched(f: string, a: string, b: string, value: string, rest: string)
    requires AllSpaces(a) && AllSpaces(b) && IsValue(value, rest)
    ensures MatchMember(f, Spaced(f, a, b, value) + rest) == |Spaced(f, a, b, value)|
  {
    hide MatchKey, MatchValue, Spaced, Quoted;
    SpacedReassociates(f, a, b, value, rest);
    assert (value + rest)[0] == value[0];
    SpacedKeyIsHit(f, a, b, value + rest);
  }

  // A flat object is a value whatever stands between its braces.
  lemma SpacedObjectIsValue(inner: string, rest: string)
    requires NoBrace(inner)
    ensures IsValue("{" + (inner + "}"), rest)
  {
    var text := ("{" + (inner + "}")) + rest;
    assert text[0] == '{';
    assert text[1..] == inner + ("}" + rest);
    UntilConcat(inner, "}" + rest, {'{', '}'});
    assert text[1 + |inner|] == '}';
    BraceIsFlat(text);
  }

  // So is every printed value that can be stripped.
  lemma PrintedIsValue(v: Json, rest: string)
    requires Printable(v) && Strippable(v) && Ends(rest)
    ensures IsValue(Print(v), rest)
  {
    ValueIsMatched(v, rest);
    ValueStart(v);
  }

  lemma {:induction false} NoCommaNoLead(f: string, before: string, rest: string)
    requires forall i :: 0 <= i < |before| ==> before[i] != ','
    ensures ReplaceAll(Lead(f), before + rest) == before + ReplaceAll(Lead(f), rest)
  {
    if before == "" {
      assert before + rest == rest;
    } else {
      var c, tail := before[0], before[1..];
      NoCommaNoLead(f, tail, rest);
      assert [c] + (tail + rest) == before + rest;
      assert Match(Lead(f), [c] + (tail + rest)) == 0;
      Emit(Lead(f), c, tail + rest);
      Reassociate(c, tail, ReplaceAll(Lead(f), rest));
      assert before == [c] + tail;
    }
  }

  lemma LeadMatchIs(f: string, c: string, member: string, rest: string)
    requires AllSpaces(c) && member != "" && member[0] == '"' && MatchMember(f, member + rest) == |member|
    ensures Match(Lead(f), ("," + (c + member)) + rest) == |"," + (c + member)|
  {
    hide MatchMember;
    var s := ("," + (c + member)) + rest;
    assert s[1..] == c + (member + rest);
    SpacesAre(c, member + rest);
    assert s[1 + |c|..] == member + rest;
  }

  lemma TrailMatchIs(f: string, member: string, c: string, rest: string)
    requires AllSpaces(c) && StartsSolid(rest) && member != ""
    requires MatchMember(f, member + ("," + (c + rest))) == |member|
    ensures Match(Trail(f), (member + ("," + c)) + rest) == |member + ("," + c)|
  {
    hide MatchMember;
    var s := (member + ("," + c)) + rest;
    assert s == member + ("," + (c + rest));
    assert s[|member|] == ',';
    assert s[|member| + 1..] == c + rest;
    SpacesAre(c, rest);
  }

  lemma SpacedIsQuoted(f: string, a: string, b: string, value: string)
    ensures Spaced(f, a, b, value) != "" && Spaced(f, a, b, value)[0] == '"'
  {
    assert Quoted(f)[0] == '"';
  }

  // What stripping passes leave of a match.
  lemma CutIs(p: Pattern, cut: string, rest: string)
    requires !p.Model? && cut != "" && Match(p, cut + rest) == |cut|
    ensures ReplaceAll(p, cut + rest) == ReplaceAll(p, rest)
  {
    hide ReplaceAll, Match;
    TakeMatch(p, cut, rest);
  }

  /** The first pass cuts the member with the comma before it, and all white space from there to its value. */
  lemma SpacedLeadIsCut(f: string, before: string, c: string, a: string, b: string, value: string, rest: string)
    requires forall i :: 0 <= i < |before| ==> before[i] != ','
    requires AllSpaces(c) && AllSpaces(a) && AllSpaces(b) && IsValue(value, rest)
    ensures ReplaceAll(Lead(f), before + (("," + (c + Spaced(f, a, b, value))) + rest))
            == before + ReplaceAll(Lead(f), rest)
  {
    hide *;
    SpacedMemberIsMatched(f, a, b, value, rest);
    SpacedIsQuoted(f, a, b, value);
    LeadMatchIs(f, c, Spaced(f, a, b, value), rest);
    CutIs(Lead(f), "," + (c + Spaced(f, a, b, value)), rest);
    NoCommaNoLead(f, before, ("," + (c + Spaced(f, a, b, value))) + rest);
  }

  /** The second cuts it with the comma behind it, and the white space after that. */
  lemma SpacedTrailIsCut(f: string, before: string, a: string, b: string, value: string, c: string, rest: string)
    requires Inert(before) && StartsSolid(rest)
    requires AllSpaces(a) && AllSpaces(b) && AllSpaces(c) && IsValue(value, "," + (c + rest))
    ensures ReplaceAll(Trail(f), before + ((Spaced(f, a, b, value) + ("," + c)) + rest))
            == before + ReplaceAll(Trail(f), rest)
  {
    hide *;
    SpacedMemberIsMatched(f, a, b, value, "," + (c + rest));
    SpacedIsQuoted(f, a, b, value);
    TrailMatchIs(f, Spaced(f, a, b, value), c, rest);
    CutIs(Trail(f), Spaced(f, a, b, value) + ("," + c), rest);
    SkipInert(Trail(f), before, (Spaced(f, a, b, value) + ("," + c)) + rest);
  }

  /** The last deletes it by itself. */
  lemma SpacedBareIsCut(f: string, before: string, a: string, b: string, value: string, rest: string)
    requires Inert(before) && AllSpaces(a) && AllSpaces(b) && IsValue(value, rest)
    ensures ReplaceAll(Bare(f), before + (Spaced(f, a, b, value) + rest)) == before + ReplaceAll(Bare(f), rest)
  {
    hide *;
    SpacedMemberIsMatched(f, a, b, value, rest);
    SpacedIsQuoted(f, a, b, value);
    BareMatchIs(f, Spaced(f, a, b, value) + rest);
    CutIs(Bare(f), Spaced(f, a, b, value), rest);
    SkipInert(Bare(f), before, Spaced(f, a, b, value) + rest);
  }

  lemma BareMatchIs(f: string, s: string)
    ensures Match(Bare(f), s) == MatchMember(f, s)
  {
  }

  lemma ModelMatchIs(id: string, a: string, b: string, model: string, rest: string)
    requires AllSpaces(a) && AllSpaces(b) && forall i :: 0 <= i < |model| ==> model[i] != '"'
    ensures
      var member := Spaced("model", a, b, Quoted(model));
      Match(Model(id), member + rest) == |member|
  {
    hide MatchKey, MatchString, Spaced;
    QuotedIsMatched(model, rest);
    SpacedReassociates("model", a, b, Quoted(model), rest);
    SpacedKeyIsHit("model", a, b, Quoted(model) + rest);
  }

  /** The model is rewritten whatever white space stands around its colon. */
  lemma SpacedModelIsRewritten(id: string, before: string, a: string, b: string, model: string, rest: string)
    requires Inert(before) && AllSpaces(a) && AllSpaces(b) && forall i :: 0 <= i < |model| ==> model[i] != '"'
    ensures ReplaceAll(Model(id), before + (Spaced("model", a, b, Quoted(model)) + rest))
            == before + ("\"model\":\"" + id + "\"" + ReplaceAll(Model(id), rest))
  {
    assert Replacement(Model(id)) == "\"model\":\"" + id + "\"";
    hide *;
    var member := Spaced("model", a, b, Quoted(model));
    ModelMatchIs(id, a, b, model, rest);
    SpacedIsQuoted("model", a, b, Quoted(model));
    TakeMatch(Model(id), member, rest);
    SkipInert(Model(id), before, member + rest);
  }

  lemma QuotedIsMatched(s: string, rest: string)
    requires forall i :: 0 <= i < |s| ==> s[i] != '"'
    ensures MatchString(Quoted(s) + rest) == |Quoted(s)|
    ensures StartsSolid(Quoted(s) + rest) && Quoted(s) + rest != ""
  {
    assert (Quoted(s) + rest)[0] == '"';
    assert (Quoted(s) + rest)[1..] == s + ("\"" + rest);
    UntilConcat(s, "\"" + rest, {'"'});
  }
}

/** Masking is a tree filter: each pass of the sanitizer, run on printed JSON, is a function of the tree. */
module Masking {
  import opened Regex
  import opened Json
  import opened Scan

  // A member a stripping pass is about: its field, with a value stripValue covers.
  predicate Targets(p: Pattern, key: string, value: Json) {
    !p.Model? && key == p.field && Strippable(value)
  }

  // Does this pass delete the member? `first` and `last` tell its place in its object.
  predicate Deletes(p: Pattern, key: string, value: Json, first: bool, last: bool) {
    Targets(p, key, value) && (p.Lead? ==> !first) && (p.Trail? ==> !last)
  }

  // The tree a pass leaves. The last one takes no comma along and leaves a gap.
  function Apply(p: Pattern, v: Json): Json {
    match v
    case Scalar(_) => v
    case Text(_) => v
    case Arr(items) => Arr(ApplyItems(p, items))
    case Obj(members) => Obj(ApplyMembers(p, members, true))
  }

  function ApplyItems(p: Pattern, items: Items): Items {
    match items
    case NoItems => NoItems
    case Item(head, tail) => Item(Apply(p, head), ApplyItems(p, tail))
  }

  function ApplyMembers(p: Pattern, members: Members, first: bool): Members {
    match members
    case NoMembers => NoMembers
    case Member(key, value, tail) =>
      if Deletes(p, key, value, first, tail.NoMembers?) then
        if p.Bare? then Gap(ApplyMembers(p, tail, false)) else ApplyMembers(p, tail, false)
      else if p.Model? && key == "model" && value.Text? then Member(key, Text(p.id), ApplyMembers(p, tail, false))
      else Member(key, Apply(p, value), ApplyMembers(p, tail, false))
    case Gap(tail) => Gap(ApplyMembers(p, tail, false))
  }

  // ---- One pass on the text is Apply on the tree ----

  lemma TakeMatch(p: Pattern, m: string, rest: string)
    requires m != "" && Match(p, m + rest) == |m|
    ensures ReplaceAll(p, m + rest) == Replacement(p) + ReplaceAll(p, rest)
  {
    assert (m + rest)[|m|..] == rest;
  }

  lemma MemberIsMatched(f: string, v: Json, rest: string)
    requires Printable(v) && Strippable(v) && Ends(rest)
    ensures MatchMember(f, Quoted(f) + (":" + (Print(v) + rest))) == |f| + 3 + |Print(v)|
  {
    var s := Quoted(f) + (":" + (Print(v) + rest));
    ValueStart(v);
    assert (Print(v) + rest)[0] == Print(v)[0];
    KeyIsHit(f, Print(v) + rest);
    ValueIsMatched(v, rest);
    assert s[|f| + 3..] == Print(v) + rest;
  }

  lemma UnstrippableIsNotMatched(f: string, v: Json, rest: string)
    requires Printable(v) && !Strippable(v)
    ensures MatchMember(f, Quoted(f) + (":" + (Print(v) + rest))) == 0
  {
    var s := Quoted(f) + (":" + (Print(v) + rest));
    ValueStart(v);
    assert (Print(v) + rest)[0] == Print(v)[0];
    KeyIsHit(f, Print(v) + rest);
    ValueIsNotMatched(v, rest);
    assert s[|f| + 3..] == Print(v) + rest;
  }

  // A member that stays: nothing matches at its key.
  lemma StayingKeyNoMatch(p: Pattern, key: string, v: Json, last: bool, rest: string)
    requires IsName(KeyOf(p)) && Plain(key) && Printable(v) && Ends(rest)
    requires p.Lead? || !Deletes(p, key, v, true, last)
    requires p.Trail? && last ==> rest == "" || rest[0] != ','
    requires !(p.Model? && key == "model" && v.Text?)
    ensures Match(p, Quoted(key) + (":" + (Print(v) + rest))) == 0
  {
    hide Match, MatchKey, MatchMember, MatchValue;
    var s := Quoted(key) + (":" + (Print(v) + rest));
    if p.Lead? {
      QuoteNoLead(p.field, s);
    } else if key != KeyOf(p) {
      OtherKey(KeyOf(p), key, ":" + (Print(v) + rest));
      NoKeyNoMatch(p, s);
    } else if p.Model? {
      ModelNeedsText(p, v, rest);
    } else if Strippable(v) {
      LastNoTrail(key, v, rest);
    } else {
      UnstrippableIsNotMatched(key, v, rest);
      NoMemberNoMatch(p, s);
    }
  }

  lemma QuoteNoLead(f: string, s: string)
    requires s != "" && s[0] == '"'
    ensures Match(Lead(f), s) == 0
  {
  }

  lemma NoMemberNoMatch(p: Pattern, s: string)
    requires (p.Trail? || p.Bare?) && MatchMember(p.field, s) == 0
    ensures Match(p, s) == 0
  {
  }

  lemma ModelNeedsText(p: Pattern, v: Json, rest: string)
    requires p.Model? && Printable(v) && !v.Text?
    ensures Match(p, Quoted("model") + (":" + (Print(v) + rest))) == 0
  {
    hide MatchKey;
    var s := Quoted("model") + (":" + (Print(v) + rest));
    ValueStart(v);
    assert (Print(v) + rest)[0] == Print(v)[0];
    KeyIsHit("model", Print(v) + rest);
    assert s[|"model"| + 3..] == Print(v) + rest;
  }

  // The last member of an object has no comma after it.
  lemma LastNoTrail(f: string, v: Json, rest: string)
    requires Printable(v) && Strippable(v) && Ends(rest) && (rest == "" || rest[0] != ',')
    ensures Match(Trail(f), Quoted(f) + (":" + (Print(v) + rest))) == 0
  {
    hide MatchMember;
    var s := Quoted(f) + (":" + (Print(v) + rest));
    MemberIsMatched(f, v, rest);
    assert s[|f| + 3 + |Print(v)|..] == rest;
  }

  predicate Ready(p: Pattern) { IsName(KeyOf(p)) && (p.Model? ==> Plain(p.id)) }

  lemma PassValue(p: Pattern, v: Json, rest: string)
    requires Ready(p) && Printable(v) && Ends(rest)
    ensures ReplaceAll(p, Print(v) + rest) == Print(Apply(p, v)) + ReplaceAll(p, rest)
    decreases v, 3
  {
    match v
    case Scalar(text) =>
      ScalarHasNoBrace(text);
      SkipInert(p, text, rest);
    case Text(s) =>
      ValueNoKey(KeyOf(p), v, rest);
      ValueStart(v);
      NoKeyNoMatch(p, Print(v) + rest);
      SkipString(p, s, rest);
    case Arr(items) => PassArray(p, items, rest);
    case Obj(members) => PassObject(p, members, rest);
  }

  // The text between two brackets.
  lemma Bracket(open: char, inner: string, close: char, rest: string)
    ensures ([open] + (inner + [close])) + rest == [open] + (inner + ([close] + rest))
  {
    Associate(inner, [close], rest);
    Associate([open], inner + [close], rest);
  }

  lemma PassBracketed(p: Pattern, open: char, inner: string, inner': string, close: char, rest: string)
    requires Inert([open]) && Inert([close])
    requires ReplaceAll(p, inner + ([close] + rest)) == inner' + ReplaceAll(p, [close] + rest)
    ensures ReplaceAll(p, ([open] + (inner + [close])) + rest)
            == ([open] + (inner' + [close])) + ReplaceAll(p, rest)
  {
    Bracket(open, inner, close, rest);
    SkipInert(p, [open], inner + ([close] + rest));
    SkipInert(p, [close], rest);
    Bracket(open, inner', close, ReplaceAll(p, rest));
  }

  lemma PassArray(p: Pattern, items: Items, rest: string)
    requires Ready(p) && PrintableItems(items) && Ends(rest)
    ensures ReplaceAll(p, Print(Arr(items)) + rest) == Print(Arr(ApplyItems(p, items))) + ReplaceAll(p, rest)
    decreases items, 2
  {
    hide ReplaceAll, Match;
    PassItems(p, items, "]" + rest);
    PassBracketed(p, '[', PrintItems(items), PrintItems(ApplyItems(p, items)), ']', rest);
  }

  lemma PassObject(p: Pattern, members: Members, rest: string)
    requires Ready(p) && PrintableMembers(members) && Ends(rest)
    ensures ReplaceAll(p, Print(Obj(members)) + rest)
            == Print(Obj(ApplyMembers(p, members, true))) + ReplaceAll(p, rest)
    decreases members, 2
  {
    hide ReplaceAll, Match;
    PassMembers(p, members, true, "}" + rest);
    PassBracketed(p, '{', PrintMembers(members), PrintMembers(ApplyMembers(p, members, true)), '}', rest);
  }

  lemma PassItems(p: Pattern, items: Items, rest: string)
    requires Ready(p) && PrintableItems(items) && rest != "" && rest[0] == ']'
    ensures ReplaceAll(p, PrintItems(items) + rest) == PrintItems(ApplyItems(p, items)) + ReplaceAll(p, rest)
    decreases items, 0
  {
    if items.NoItems? {
      assert PrintItems(items) + rest == rest;
    } else {
      var more := PrintMoreItems(items.tail) + rest;
      Associate(Print(items.head), PrintMoreItems(items.tail), rest);
      PassValue(p, items.head, more);
      PassMoreItems(p, items.tail, rest);
      Associate(Print(Apply(p, items.head)), PrintMoreItems(ApplyItems(p, items.tail)), ReplaceAll(p, rest));
    }
  }

  lemma PassMoreItems(p: Pattern, items: Items, rest: string)
    requires Ready(p) && PrintableItems(items) && rest != "" && rest[0] == ']'
    ensures ReplaceAll(p, PrintMoreItems(items) + rest) == PrintMoreItems(ApplyItems(p, items)) + ReplaceAll(p, rest)
    decreases items, 1
  {
    if items.NoItems? {
      assert PrintMoreItems(items) + rest == rest;
    } else {
      var next := PrintItems(items) + rest;
      var more := PrintMoreItems(items.tail) + rest;
      Associate(Print(items.head), PrintMoreItems(items.tail), rest);
      ValueStart(items.head);
      assert next[0] == Print(items.head)[0];
      ValueNoKey(KeyOf(p), items.head, more);
      Associate(",", PrintItems(items), rest);
      SkipComma(p, next);
      PassItems(p, items, rest);
      Associate(",", PrintItems(ApplyItems(p, items)), ReplaceAll(p, rest));
    }
  }

  lemma Associate(a: string, b: string, c: string)
    ensures (a + b) + c == a + (b + c)
  {
  }

  lemma AssociateMember(k: string, v: string, more: string, rest: string)
    ensures (Quoted(k) + (":" + (v + more))) + rest == Quoted(k) + (":" + (v + (more + rest)))
  {
    Associate(v, more, rest);
    Associate(":", v + more, rest);
    Associate(Quoted(k), ":" + (v + more), rest);
  }

  // A member no match starts at: its value is passed, then what follows.
  lemma PassStaying(p: Pattern, key: string, v: Json, rest: string)
    requires Ready(p) && Plain(key) && Printable(v) && Ends(rest)
    requires Match(p, Quoted(key) + (":" + (Print(v) + rest))) == 0
    ensures ReplaceAll(p, Quoted(key) + (":" + (Print(v) + rest)))
            == Quoted(key) + (":" + (Print(Apply(p, v)) + ReplaceAll(p, rest)))
    decreases v, 4
  {
    SkipString(p, key, ":" + (Print(v) + rest));
    SkipInert(p, ":", Print(v) + rest);
    PassValue(p, v, rest);
  }

  lemma SplitMember(k: string, v: string, rest: string)
    ensures Quoted(k) + (":" + (v + rest)) == (Quoted(k) + (":" + v)) + rest
  {
    Associate(":", v, rest);
    Associate(Quoted(k), ":" + v, rest);
  }

  lemma ModelIsMatched(p: Pattern, k: string, s: string, rest: string)
    requires p.Model? && k == "model" && Plain(s)
    ensures Match(p, Quoted(k) + (":" + (Quoted(s) + rest))) == |k| + |s| + 5
  {
    var text := Quoted(k) + (":" + (Quoted(s) + rest));
    assert (Quoted(s) + rest)[0] == '"';
    KeyIsHit(k, Quoted(s) + rest);
    StringIsMatched(s, rest);
    assert text[|k| + 3..] == Quoted(s) + rest;
  }

  // The rewritten model member.
  lemma PassModel(p: Pattern, k: string, s: string, rest: string)
    requires p.Model? && k == "model" && Plain(s)
    ensures ReplaceAll(p, Quoted(k) + (":" + (Quoted(s) + rest)))
            == Quoted(k) + (":" + (Quoted(p.id) + ReplaceAll(p, rest)))
  {
    SplitMember(k, Quoted(s), rest);
    SplitMember(k, Quoted(p.id), ReplaceAll(p, rest));
    ModelIsMatched(p, k, s, rest);
    TakeMatch(p, Quoted(k) + (":" + Quoted(s)), rest);
    ReplacementIs(p, k);
  }

  lemma ReplacementIs(p: Pattern, k: string)
    requires p.Model? && k == "model"
    ensures Replacement(p) == Quoted(k) + (":" + Quoted(p.id))
  {
    assert Quoted(k) + ":" == "\"model\":";
    Associate(Quoted(k), ":", Quoted(p.id));
  }

  lemma PassMembers(p: Pattern, members: Members, first: bool, rest: string)
    requires Ready(p) && PrintableMembers(members)
    requires p.Lead? ==> first
    requires rest != "" && rest[0] == '}'
    ensures ReplaceAll(p, PrintMembers(members) + rest)
            == PrintMembers(ApplyMembers(p, members, first)) + ReplaceAll(p, rest)
    decreases members, 0
  {
    if members.NoMembers? {
      assert PrintMembers(members) + rest == rest;
    } else if members.Gap? {
      PassMoreMembers(p, members.tail, rest);
    } else {
      var Member(key, value, tail) := members;
      var more := PrintMoreMembers(tail) + rest;
      AssociateMember(key, Print(value), PrintMoreMembers(tail), rest);
      var tail' := ApplyMembers(p, tail, false);
      if Deletes(p, key, value, first, tail.NoMembers?) {
        if p.Trail? { PassTrail(p, key, value, tail, rest); } else { PassBare(p, key, value, tail, rest); }
      } else if p.Model? && key == "model" && value.Text? {
        PassModel(p, key, value.s, more);
        PassMoreMembers(p, tail, rest);
        AssociateMember(key, Quoted(p.id), PrintMoreMembers(tail'), ReplaceAll(p, rest));
      } else {
        StayingKeyNoMatch(p, key, value, tail.NoMembers?, more);
        PassStaying(p, key, value, more);
        PassMoreMembers(p, tail, rest);
        AssociateMember(key, Print(Apply(p, value)), PrintMoreMembers(tail'), ReplaceAll(p, rest));
      }
    }
  }

  // Trail deletes a member together with the comma after it.
  lemma PassTrail(p: Pattern, f: string, value: Json, tail: Members, rest: string)
    requires Ready(p) && p == Trail(f) && Printable(value) && Strippable(value)
    requires PrintableMembers(tail) && !tail.NoMembers? && rest != "" && rest[0] == '}'
    ensures ReplaceAll(p, PrintMembers(Member(f, value, tail)) + rest)
            == PrintMembers(ApplyMembers(p, tail, false)) + ReplaceAll(p, rest)
    decreases tail, 3
  {
    hide ReplaceAll, Match, MatchMember, Print, PrintMembers;
    var m, next, more := Quoted(f) + (":" + Print(value)), PrintMembers(tail) + rest, PrintMoreMembers(tail) + rest;
    MemberPrints(f, value, tail, rest);
    Associate(",", PrintMembers(tail), rest);
    assert more == "," + next;
    MemberIsMatched(f, value, more);
    SplitMember(f, Print(value), more);
    MembersStart(tail, rest);
    TrailIsMatched(p, m, next);
    PassMembers(p, tail, false, rest);
  }

  lemma MemberPrints(key: string, value: Json, tail: Members, rest: string)
    ensures PrintMembers(Member(key, value, tail)) + rest
            == Quoted(key) + (":" + (Print(value) + (PrintMoreMembers(tail) + rest)))
  {
    AssociateMember(key, Print(value), PrintMoreMembers(tail), rest);
  }

  lemma MembersStart(members: Members, rest: string)
    requires rest != "" && rest[0] == '}'
    ensures PrintMembers(members) + rest != "" && (PrintMembers(members) + rest)[0] in {'"', ',', '}'}
  {
  }

  // Bare deletes it and leaves a gap.
  lemma PassBare(p: Pattern, f: string, value: Json, tail: Members, rest: string)
    requires Ready(p) && p == Bare(f) && Printable(value) && Strippable(value)
    requires PrintableMembers(tail) && rest != "" && rest[0] == '}'
    ensures ReplaceAll(p, PrintMembers(Member(f, value, tail)) + rest)
            == PrintMembers(Gap(ApplyMembers(p, tail, false))) + ReplaceAll(p, rest)
    decreases tail, 3
  {
    hide ReplaceAll, MatchMember, Print;
    var more := PrintMoreMembers(tail) + rest;
    MemberPrints(f, value, tail, rest);
    MemberIsMatched(f, value, more);
    SplitMember(f, Print(value), more);
    TakeMatch(p, Quoted(f) + (":" + Print(value)), more);
    PassMoreMembers(p, tail, rest);
  }

  lemma TrailIsMatched(p: Pattern, m: string, next: string)
    requires p.Trail? && next != "" && !IsSpace(next[0])
    requires m != "" && MatchMember(p.field, m + ("," + next)) == |m|
    ensures ReplaceAll(p, m + ("," + next)) == ReplaceAll(p, next)
  {
    hide MatchMember, ReplaceAll;
    var text := m + ("," + next);
    assert text[|m|] == ',' && text[|m| + 1..] == next;
    assert Match(p, text) == |m| + 1;
    hide Match;
    Associate(m, ",", next);
    TakeMatch(p, m + ",", next);
  }

  lemma PassMoreMembers(p: Pattern, members: Members, rest: string)
    requires Ready(p) && PrintableMembers(members)
    requires rest != "" && rest[0] == '}'
    ensures ReplaceAll(p, PrintMoreMembers(members) + rest)
            == PrintMoreMembers(ApplyMembers(p, members, false)) + ReplaceAll(p, rest)
    decreases members, 1
  {
    if members.NoMembers? {
      assert PrintMoreMembers(members) + rest == rest;
    } else if p.Lead? && members.Member? {
      PassLead(p, members, rest);
    } else if p.Lead? {
      PassGap(p, members.tail, rest);
    } else {
      var next := PrintMembers(members) + rest;
      Associate(",", PrintMembers(members), rest);
      SkipComma(p, next);
      PassMembers(p, members, false, rest);
      NonEmptyStays(p, members);
      Associate(",", PrintMembers(ApplyMembers(p, members, false)), ReplaceAll(p, rest));
    }
  }

  // Only the first pass can empty the rest of an object.
  lemma NonEmptyStays(p: Pattern, members: Members)
    requires !members.NoMembers? && !p.Lead?
    ensures !ApplyMembers(p, members, false).NoMembers?
  {
    if !members.tail.NoMembers? { NonEmptyStays(p, members.tail); }
  }

  // The first pass takes no comma before a gap.
  lemma PassGap(p: Pattern, tail: Members, rest: string)
    requires Ready(p) && p.Lead? && PrintableMembers(tail) && rest != "" && rest[0] == '}'
    ensures ReplaceAll(p, PrintMoreMembers(Gap(tail)) + rest)
            == PrintMoreMembers(Gap(ApplyMembers(p, tail, false))) + ReplaceAll(p, rest)
    decreases tail, 2
  {
    var next := PrintMoreMembers(tail) + rest;
    Associate(",", PrintMoreMembers(tail), rest);
    assert next[0] == ',' || next[0] == '}';
    NoQuoteNoKey(p.field, next);
    NoKeyNoMember(p.field, next);
    SkipComma(p, next);
    PassMoreMembers(p, tail, rest);
    Associate(",", PrintMoreMembers(ApplyMembers(p, tail, false)), ReplaceAll(p, rest));
  }

  lemma LeadIsMatched(p: Pattern, m: string, more: string)
    requires p.Lead? && m != "" && !IsSpace(m[0]) && MatchMember(p.field, m + more) == |m|
    ensures ReplaceAll(p, "," + (m + more)) == ReplaceAll(p, more)
  {
    hide MatchMember, ReplaceAll;
    var text := "," + (m + more);
    assert text[1..] == m + more && text[0] == ',';
    assert (m + more)[0] == m[0] && Spaces(m + more) == 0;
    assert Match(p, text) == 1 + |m|;
    hide Match;
    Associate(",", m, more);
    TakeMatch(p, "," + m, more);
  }

  lemma NoKeyNoMember(f: string, s: string)
    requires MatchKey(f, s) == 0
    ensures MatchMember(f, s) == 0
  {
  }

  lemma PassLead(p: Pattern, members: Members, rest: string)
    requires Ready(p) && p.Lead? && PrintableMembers(members)
    requires members.Member? && rest != "" && rest[0] == '}'
    ensures ReplaceAll(p, PrintMoreMembers(members) + rest)
            == PrintMoreMembers(ApplyMembers(p, members, false)) + ReplaceAll(p, rest)
    decreases members, 0, 0
  {
    hide Match, MatchKey, MatchMember, MatchValue, ReplaceAll, Spaces, Printable, Apply;
    var Member(key, value, tail) := members;
    var more := PrintMoreMembers(tail) + rest;
    var next := PrintMembers(members) + rest;
    var tail' := ApplyMembers(p, tail, false);
    Associate(",", PrintMembers(members), rest);
    AssociateMember(key, Print(value), PrintMoreMembers(tail), rest);
    assert next[0] == '"';
    if Targets(p, key, value) {
      MemberIsMatched(key, value, more);
      SplitMember(key, Print(value), more);
      LeadIsMatched(p, Quoted(key) + (":" + Print(value)), more);
      PassMoreMembers(p, tail, rest);
    } else {
      if key == p.field {
        UnstrippableIsNotMatched(key, value, more);
      } else {
        OtherKey(p.field, key, ":" + (Print(value) + more));
        NoKeyNoMember(p.field, next);
      }
      SkipComma(p, next);
      StayingKeyNoMatch(p, key, value, tail.NoMembers?, more);
      PassStaying(p, key, value, more);
      PassMoreMembers(p, tail, rest);
      AssociateMember(key, Print(Apply(p, value)), PrintMoreMembers(tail'), ReplaceAll(p, rest));
      Associate(",", PrintMembers(ApplyMembers(p, members, false)), ReplaceAll(p, rest));
    }
  }

  /** One pass over the text of any tree prints the tree the pass leaves. */
  lemma PassIsApply(p: Pattern, v: Json)
    requires Ready(p) && Printable(v)
    ensures ReplaceAll(p, Print(v)) == Print(Apply(p, v))
  {
    PassValue(p, v, "");
    assert Print(v) + "" == Print(v);
    assert Print(Apply(p, v)) + ReplaceAll(p, "") == Print(Apply(p, v));
  }
}

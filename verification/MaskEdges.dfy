/** When masking leaves valid JSON: exactly when no comma is left beside a removed member. */
module MaskEdges {
  import opened Regex
  import opened Json
  import opened Scan
  import opened Masking
  import opened MaskTree

  // The text is the compact print of some tree.
  ghost predicate ValidJson(s: string) { exists w :: WellFormed(w) && Print(w) == s }

  // ---- Text that is some tree's print has no gap with a comma beside it, and is no other tree's ----

  lemma SameString(s: string, t: string, rest: string, rest': string)
    requires Plain(s) && Plain(t)
    requires Quoted(s) + rest == Quoted(t) + rest'
    ensures s == t && rest == rest'
  {
    Unquote(s, rest);
    Unquote(t, rest');
    var inner := s + ("\"" + rest);
    assert (Quoted(s) + rest)[1..] == inner;
    assert (Quoted(t) + rest')[1..] == t + ("\"" + rest');
    UntilConcat(s, "\"" + rest, {'"'});
    UntilConcat(t, "\"" + rest', {'"'});
    assert inner[..|s|] == s && inner[..|s|] == t;
    SameTail(s, "\"" + rest, "\"" + rest');
    SameTail("\"", rest, rest');
  }

  lemma SameTail(a: string, b: string, c: string)
    requires a + b == a + c
    ensures b == c
  {
    assert (a + b)[|a|..] == b && (a + c)[|a|..] == c;
  }

  predicate NoEnd(s: string) { forall i :: 0 <= i < |s| ==> s[i] !in {',', ']', '}'} }

  lemma ScalarHasNoEnd(text: string)
    requires IsScalar(text)
    ensures NoEnd(text) && text[0] != '"' && text[0] != '[' && text[0] != '{'
  {
    if MatchNumber(text) == |text| { NumberChars(text); }
  }

  lemma SameScalar(a: string, b: string, rest: string, rest': string)
    requires NoEnd(a) && NoEnd(b) && Ends(rest) && Ends(rest')
    requires a + rest == b + rest'
    ensures a == b && rest == rest'
  {
    UntilSkip(a, rest, {',', ']', '}'});
    UntilSkip(b, rest', {',', ']', '}'});
    assert (a + rest)[|a|..] == rest && (b + rest')[|b|..] == rest';
    assert (a + rest)[..|a|] == a && (b + rest')[..|b|] == b;
  }

  lemma SameInner(open: char, inner: string, inner': string, close: char, rest: string, rest': string)
    requires ([open] + (inner + [close])) + rest == ([open] + (inner' + [close])) + rest'
    ensures inner + ([close] + rest) == inner' + ([close] + rest')
  {
    Bracket(open, inner, close, rest);
    Bracket(open, inner', close, rest');
    SameTail([open], inner + ([close] + rest), inner' + ([close] + rest'));
  }

  lemma SameText(v: Json, w: Json, rest: string, rest': string)
    requires Printable(v) && WellFormed(w) && Ends(rest) && Ends(rest')
    requires Print(v) + rest == Print(w) + rest'
    ensures Lone(v) && w == Close(v) && rest == rest'
    decreases v, 3
  {
    SameStart(v, w, rest, rest');
    match v
    case Scalar(text) =>
      ScalarHasNoEnd(text);
      ScalarHasNoEnd(w.text);
      SameScalar(text, w.text, rest, rest');
    case Text(s) => SameString(s, w.s, rest, rest');
    case Arr(items) =>
      SameInner('[', PrintItems(items), PrintItems(w.items), ']', rest, rest');
      SameItems(items, w.items, "]" + rest, "]" + rest');
      SameTail("]", rest, rest');
    case Obj(members) =>
      SameInner('{', PrintMembers(members), PrintMembers(w.members), '}', rest, rest');
      SameMembers(members, w.members, true, "}" + rest, "}" + rest');
      SameTail("}", rest, rest');
  }

  lemma SameStart(v: Json, w: Json, rest: string, rest': string)
    requires Printable(v) && WellFormed(w)
    requires Print(v) + rest == Print(w) + rest'
    ensures v.Scalar? <==> w.Scalar?
    ensures v.Text? <==> w.Text?
    ensures v.Arr? <==> w.Arr?
  {
    WellFormedPrints(w);
    ValueStart(v);
    ValueStart(w);
    if v.Scalar? { ScalarHasNoEnd(v.text); }
    if w.Scalar? { ScalarHasNoEnd(w.text); }
    assert Print(v)[0] == (Print(v) + rest)[0] == (Print(w) + rest')[0] == Print(w)[0];
  }

  lemma ValueNoEnd(v: Json)
    requires Printable(v)
    ensures Print(v) != "" && Print(v)[0] != ']' && Print(v)[0] != ','
  {
    ValueStart(v);
    if v.Scalar? { ScalarHasNoEnd(v.text); }
  }

  lemma SameItems(items: Items, items': Items, rest: string, rest': string)
    requires PrintableItems(items) && WellFormedItems(items')
    requires rest != "" && rest[0] == ']' && rest' != "" && rest'[0] == ']'
    requires PrintItems(items) + rest == PrintItems(items') + rest'
    ensures LoneItems(items) && items' == CloseItems(items) && rest == rest'
    decreases items, 0
  {
    WellFormedItemsPrint(items');
    ItemsStart(items, rest);
    ItemsStart(items', rest');
    if items.Item? {
      var more, more' := PrintMoreItems(items.tail), PrintMoreItems(items'.tail);
      Associate(Print(items.head), more, rest);
      Associate(Print(items'.head), more', rest');
      SameText(items.head, items'.head, more + rest, more' + rest');
      SameMoreItems(items.tail, items'.tail, rest, rest');
    } else {
      assert PrintItems(items) + rest == rest && PrintItems(items') + rest' == rest';
    }
  }

  lemma ItemsStart(items: Items, rest: string)
    requires PrintableItems(items) && rest != "" && rest[0] == ']'
    ensures (PrintItems(items) + rest)[0] == ']' <==> items.NoItems?
  {
    if items.Item? {
      ValueNoEnd(items.head);
      assert (PrintItems(items) + rest)[0] == Print(items.head)[0];
    }
  }

  lemma SameMoreItems(items: Items, items': Items, rest: string, rest': string)
    requires PrintableItems(items) && WellFormedItems(items')
    requires rest != "" && rest[0] == ']' && rest' != "" && rest'[0] == ']'
    requires PrintMoreItems(items) + rest == PrintMoreItems(items') + rest'
    ensures LoneItems(items) && items' == CloseItems(items) && rest == rest'
    decreases items, 1
  {
    assert (PrintMoreItems(items) + rest)[0] == if items.Item? then ',' else ']';
    assert (PrintMoreItems(items') + rest')[0] == if items'.Item? then ',' else ']';
    if items.Item? {
      Associate(",", PrintItems(items), rest);
      Associate(",", PrintItems(items'), rest');
      SameTail(",", PrintItems(items) + rest, PrintItems(items') + rest');
      SameItems(items, items', rest, rest');
    } else {
      assert PrintMoreItems(items) + rest == rest && PrintMoreItems(items') + rest' == rest';
    }
  }

  // Past a comma another member must follow.
  lemma SameMembers(members: Members, members': Members, first: bool, rest: string, rest': string)
    requires PrintableMembers(members) && WellFormedMembers(members')
    requires rest != "" && rest[0] == '}' && rest' != "" && rest'[0] == '}'
    requires PrintMembers(members) + rest == PrintMembers(members') + rest'
    requires first || members'.Member?
    ensures LoneMembers(members, first) && members' == CloseMembers(members) && rest == rest'
    decreases members, 0
  {
    var text := PrintMembers(members) + rest;
    assert (PrintMembers(members') + rest')[0] == if members'.Member? then '"' else '}';
    match members
    case NoMembers =>
      assert text == rest && PrintMembers(members') + rest' == rest';
    case Gap(tail) =>
      assert text[0] == if tail.NoMembers? then '}' else ',';
      assert members'.NoMembers? && tail.NoMembers? && text == rest;
      assert PrintMembers(members') + rest' == rest';
    case Member(key, value, tail) =>
      assert text[0] == '"';
      SameMember(members, members', rest, rest');
      SameText(value, members'.value, PrintMoreMembers(tail) + rest, PrintMoreMembers(members'.tail) + rest');
      SameMoreMembers(tail, members'.tail, rest, rest');
  }

  lemma SameMember(members: Members, members': Members, rest: string, rest': string)
    requires members.Member? && members'.Member? && Plain(members.key) && Plain(members'.key)
    requires PrintMembers(members) + rest == PrintMembers(members') + rest'
    ensures members.key == members'.key
    ensures Print(members.value) + (PrintMoreMembers(members.tail) + rest)
            == Print(members'.value) + (PrintMoreMembers(members'.tail) + rest')
  {
    var value, value' := Print(members.value), Print(members'.value);
    var more, more' := PrintMoreMembers(members.tail), PrintMoreMembers(members'.tail);
    hide Print;
    AssociateMember(members.key, value, more, rest);
    AssociateMember(members'.key, value', more', rest');
    SameString(members.key, members'.key, ":" + (value + (more + rest)), ":" + (value' + (more' + rest')));
    SameTail(":", value + (more + rest), value' + (more' + rest'));
  }

  lemma SameMoreMembers(members: Members, members': Members, rest: string, rest': string)
    requires PrintableMembers(members) && WellFormedMembers(members')
    requires rest != "" && rest[0] == '}' && rest' != "" && rest'[0] == '}'
    requires PrintMoreMembers(members) + rest == PrintMoreMembers(members') + rest'
    ensures LoneMembers(members, false) && members' == CloseMembers(members) && rest == rest'
    decreases members, 1
  {
    assert (PrintMoreMembers(members) + rest)[0] == if members.NoMembers? then '}' else ',';
    assert (PrintMoreMembers(members') + rest')[0] == if members'.NoMembers? then '}' else ',';
    if members.NoMembers? {
      assert PrintMoreMembers(members) + rest == rest && PrintMoreMembers(members') + rest' == rest';
    } else {
      Associate(",", PrintMembers(members), rest);
      Associate(",", PrintMembers(members'), rest');
      SameTail(",", PrintMembers(members) + rest, PrintMembers(members') + rest');
      SameMembers(members, members', false, rest, rest');
    }
  }

  /** The compact print of a tree is no other tree's. */
  lemma PrintIsInjective(v: Json, w: Json)
    requires WellFormed(v) && WellFormed(w) && Print(v) == Print(w)
    ensures v == w
  {
    WellFormedPrints(v);
    assert Print(v) + "" == Print(w) + "";
    SameText(v, w, "", "");
    CloseIsWellFormed(v);
  }

  /** A tree with gaps prints as valid JSON exactly when every gap is alone in its object. */
  lemma PrintIsValidIff(v: Json)
    requires Printable(v)
    ensures ValidJson(Print(v)) <==> Lone(v)
  {
    if Lone(v) {
      ClosePrints(v);
      CloseIsWellFormed(v);
    }
    if w :| WellFormed(w) && Print(w) == Print(v) {
      assert Print(v) + "" == Print(w) + "";
      SameText(v, w, "", "");
    }
  }

  /** The last pass leaves valid JSON exactly when every member it deletes is alone in its object. */
  lemma BareIsValidIff(f: string, v: Json)
    requires IsName(f) && Printable(v)
    ensures ValidJson(ReplaceAll(Bare(f), Print(v))) <==> Lone(Apply(Bare(f), v))
  {
    PassIsApply(Bare(f), v);
    PrintableStays(Bare(f), v);
    PrintIsValidIff(Apply(Bare(f), v));
  }

  /** stripField leaves valid JSON, for any tree at all, exactly when every strippable member that its first
      two passes leave behind is alone in its object. */
  lemma StripFieldIsValidIff(f: string, v: Json)
    requires IsName(f) && Printable(v)
    ensures ValidJson(StripField(Print(v), f)) <==> Lone(Strip(f, v))
    ensures Lone(Strip(f, v)) ==> StripField(Print(v), f) == Print(Close(Strip(f, v)))
    ensures WellFormed(v) && Settled(f, v) ==> Lone(Strip(f, v)) && Close(Strip(f, v)) == Drop(f, v)
  {
    StripFieldIsStrip(f, v);
    PrintIsValidIff(Strip(f, v));
    if Lone(Strip(f, v)) { ClosePrints(Strip(f, v)); }
    if WellFormed(v) && Settled(f, v) { StripIsDrop(f, v); }
  }

  // { k: x, f: { j: y, f: z } }
  function SelfNested(f: string, k: string, x: Json, j: string, y: Json, z: Json): Json {
    Obj(Member(k, x, Member(f, Obj(Member(j, y, Member(f, z, NoMembers))), NoMembers)))
  }

  // { k: x, f: { j: y } }
  function Nested(f: string, k: string, x: Json, j: string, y: Json): Json {
    Obj(Member(k, x, Member(f, Obj(Member(j, y, NoMembers)), NoMembers)))
  }

  // { k: x, }
  function Torn(k: string, x: Json): Json { Obj(Member(k, x, Gap(NoMembers))) }

  lemma LeadOnSelfNested(f: string, k: string, x: Json, j: string, y: Json, z: Json)
    requires k != f && j != f && NoObject(x) && NoObject(y) && z.Obj? && Strippable(z)
    ensures Apply(Lead(f), SelfNested(f, k, x, j, y, z)) == Nested(f, k, x, j, y)
  {
    var inner := Member(j, y, Member(f, z, NoMembers));
    NoObjectUntouched(Lead(f), x);
    NoObjectUntouched(Lead(f), y);
    var outer := Member(f, Obj(inner), NoMembers);
    assert !FlatMembers(inner.tail);
    assert ApplyMembers(Lead(f), NoMembers, false) == NoMembers;
    assert ApplyMembers(Lead(f), inner.tail, false) == NoMembers;
    assert ApplyMembers(Lead(f), inner, true) == Member(j, y, NoMembers);
    assert ApplyMembers(Lead(f), outer, false) == Member(f, Obj(Member(j, y, NoMembers)), NoMembers);
    assert ApplyMembers(Lead(f), Member(k, x, outer), true) == Member(k, x, ApplyMembers(Lead(f), outer, false));
  }

  lemma TrailOnNested(f: string, k: string, x: Json, j: string, y: Json)
    requires k != f && j != f && NoObject(x) && NoObject(y)
    ensures Apply(Trail(f), Nested(f, k, x, j, y)) == Nested(f, k, x, j, y)
  {
    NoObjectUntouched(Trail(f), x);
    NoObjectUntouched(Trail(f), y);
    var outer := Member(f, Obj(Member(j, y, NoMembers)), NoMembers);
    assert ApplyMembers(Trail(f), NoMembers, false) == NoMembers;
    assert ApplyMembers(Trail(f), Member(j, y, NoMembers), true) == Member(j, y, NoMembers);
    assert ApplyMembers(Trail(f), outer, false) == outer;
  }

  lemma BareOnNested(f: string, k: string, x: Json, j: string, y: Json)
    requires k != f && j != f && NoObject(x) && NoObject(y)
    ensures Apply(Bare(f), Nested(f, k, x, j, y)) == Torn(k, x)
  {
    var outer := Member(f, Obj(Member(j, y, NoMembers)), NoMembers);
    NoObjectUntouched(Bare(f), x);
    assert FlatMembers(NoMembers) && FlatMembers(Member(j, y, NoMembers));
    assert ApplyMembers(Bare(f), NoMembers, false) == NoMembers;
    assert ApplyMembers(Bare(f), outer, false) == Gap(NoMembers);
  }

  lemma SelfNestedWellFormed(f: string, k: string, x: Json, j: string, y: Json, z: Json)
    requires Plain(f) && Plain(k) && Plain(j) && WellFormed(x) && WellFormed(y) && WellFormed(z)
    ensures WellFormed(SelfNested(f, k, x, j, y, z))
  {
    assert WellFormedMembers(NoMembers);
    assert WellFormedMembers(Member(j, y, Member(f, z, NoMembers)));
    assert WellFormedMembers(Member(f, Obj(Member(j, y, Member(f, z, NoMembers))), NoMembers));
  }

  lemma TornIs(k: string, x: Json)
    ensures Print(Torn(k, x)) == "{" + ((Quoted(k) + (":" + (Print(x) + ","))) + "}") && !Lone(Torn(k, x))
  {
    assert PrintMembers(Gap(NoMembers)) == "" && PrintMoreMembers(Gap(NoMembers)) == ",";
    assert !LoneMembers(Gap(NoMembers), false);
  }

  /** A field nested in itself breaks the body: the inner member goes first, which makes the outer one flat
      for the last pass only, and that pass leaves its comma. */
  lemma SelfNestedLeavesComma(f: string, k: string, x: Json, j: string, y: Json, z: Json)
    requires IsName(f) && Plain(k) && Plain(j) && k != f && j != f
    requires WellFormed(x) && NoObject(x) && WellFormed(y) && NoObject(y)
    requires WellFormed(z) && z.Obj? && Strippable(z)
    ensures Strip(f, SelfNested(f, k, x, j, y, z)) == Torn(k, x)
    ensures
      var s := StripField(Print(SelfNested(f, k, x, j, y, z)), f);
      s == "{" + ((Quoted(k) + (":" + (Print(x) + ","))) + "}") && !ValidJson(s)
  {
    var v := SelfNested(f, k, x, j, y, z);
    SelfNestedWellFormed(f, k, x, j, y, z);
    WellFormedPrints(v);
    LeadOnSelfNested(f, k, x, j, y, z);
    TrailOnNested(f, k, x, j, y);
    BareOnNested(f, k, x, j, y);
    StripFieldIsStrip(f, v);
    StripFieldIsValidIff(f, v);
    TornIs(k, x);
  }
}

/** JSON trees and their compact text, in the language the masking expressions are written for. */
module Json {
  import opened Regex

  datatype Json = Scalar(text: string) | Text(s: string) | Arr(items: Items) | Obj(members: Members)
  datatype Items = NoItems | Item(head: Json, tail: Items)

  // A gap is what is left between the commas of an object when a member goes without them.
  datatype Members = NoMembers | Member(key: string, value: Json, tail: Members) | Gap(tail: Members)

  function Print(v: Json): string {
    match v
    case Scalar(text) => text
    case Text(s) => Quoted(s)
    case Arr(items) => "[" + (PrintItems(items) + "]")
    case Obj(members) => "{" + (PrintMembers(members) + "}")
  }

  function PrintItems(items: Items): string
    decreases items, 0
  {
    match items
    case NoItems => ""
    case Item(head, tail) => Print(head) + PrintMoreItems(tail)
  }

  function PrintMoreItems(items: Items): string
    decreases items, 1
  {
    if items.NoItems? then "" else "," + PrintItems(items)
  }

  function PrintMembers(members: Members): string
    decreases members, 0
  {
    match members
    case NoMembers => ""
    case Member(key, value, tail) => Quoted(key) + (":" + (Print(value) + PrintMoreMembers(tail)))
    case Gap(tail) => PrintMoreMembers(tail)
  }

  function PrintMoreMembers(members: Members): string
    decreases members, 1
  {
    if members.NoMembers? then "" else "," + PrintMembers(members)
  }

  // No quote, backslash or brace.
  predicate Plain(s: string) {
    forall i :: 0 <= i < |s| ==> s[i] != '"' && s[i] != '\\' && s[i] != '{' && s[i] != '}'
  }

  // A number without exponent, or true, false, null.
  predicate IsScalar(text: string) {
    text != "" && (MatchNumber(text) == |text| || text in {"true", "false", "null"})
  }

  // A tree in that language, which may have gaps.
  predicate Printable(v: Json) {
    match v
    case Scalar(text) => IsScalar(text)
    case Text(s) => Plain(s)
    case Arr(items) => PrintableItems(items)
    case Obj(members) => PrintableMembers(members)
  }

  predicate PrintableItems(items: Items) {
    items.Item? ==> Printable(items.head) && PrintableItems(items.tail)
  }

  predicate PrintableMembers(members: Members) {
    match members
    case NoMembers => true
    case Member(key, value, tail) => Plain(key) && Printable(value) && PrintableMembers(tail)
    case Gap(tail) => PrintableMembers(tail)
  }

  // A tree of JSON: no gaps.
  predicate WellFormed(v: Json) {
    match v
    case Scalar(text) => IsScalar(text)
    case Text(s) => Plain(s)
    case Arr(items) => WellFormedItems(items)
    case Obj(members) => WellFormedMembers(members)
  }

  predicate WellFormedItems(items: Items) {
    items.Item? ==> WellFormed(items.head) && WellFormedItems(items.tail)
  }

  predicate WellFormedMembers(members: Members) {
    match members
    case NoMembers => true
    case Member(key, value, tail) => Plain(key) && WellFormed(value) && WellFormedMembers(tail)
    case Gap(_) => false
  }

  lemma WellFormedPrints(v: Json)
    requires WellFormed(v)
    ensures Printable(v)
  {
    match v
    case Scalar(_) =>
    case Text(_) =>
    case Arr(items) => WellFormedItemsPrint(items);
    case Obj(members) => WellFormedMembersPrint(members);
  }

  lemma WellFormedItemsPrint(items: Items)
    requires WellFormedItems(items)
    ensures PrintableItems(items)
  {
    if items.Item? {
      WellFormedPrints(items.head);
      WellFormedItemsPrint(items.tail);
    }
  }

  lemma WellFormedMembersPrint(members: Members)
    requires WellFormedMembers(members)
    ensures PrintableMembers(members)
  {
    if members.Member? {
      WellFormedPrints(members.value);
      WellFormedMembersPrint(members.tail);
    }
  }

  // No object anywhere inside.
  predicate NoObject(v: Json) {
    match v
    case Scalar(_) => true
    case Text(_) => true
    case Arr(items) => NoObjectItems(items)
    case Obj(_) => false
  }

  predicate NoObjectItems(items: Items) {
    items.Item? ==> NoObject(items.head) && NoObjectItems(items.tail)
  }

  predicate FlatMembers(members: Members) {
    match members
    case NoMembers => true
    case Member(_, value, tail) => NoObject(value) && FlatMembers(tail)
    case Gap(tail) => FlatMembers(tail)
  }

  // What stripValue covers: scalars, strings and flat objects, but no arrays.
  predicate Strippable(v: Json) {
    match v
    case Scalar(_) => true
    case Text(_) => true
    case Arr(_) => false
    case Obj(members) => FlatMembers(members)
  }

  // ---- Scalars, strings and flat objects are matched whole ----

  // What may follow a printed value.
  predicate Ends(rest: string) { rest == "" || rest[0] in {',', ']', '}'} }

  lemma {:induction false} DigitsConcat(a: string, rest: string)
    ensures Digits(a) < |a| ==> Digits(a + rest) == Digits(a)
    ensures Digits(a) == |a| ==> Digits(a + rest) == |a| + Digits(rest)
  {
    if a == "" {
      assert a + rest == rest;
    } else {
      assert (a + rest)[1..] == a[1..] + rest;
      DigitsConcat(a[1..], rest);
    }
  }

  lemma MatchUnsignedConcat(a: string, rest: string)
    requires a != "" && MatchUnsigned(a) == |a| && Ends(rest)
    ensures MatchUnsigned(a + rest) == |a|
  {
    var d := Digits(a);
    var s := a + rest;
    DigitsConcat(a, rest);
    assert Digits(rest) == 0;
    if d < |a| {
      assert s[d] == a[d] == '.';
      assert s[d + 1..] == a[d + 1..] + rest;
      DigitsConcat(a[d + 1..], rest);
    } else if d < |s| {
      assert s[d] == rest[0];
    }
  }

  lemma MatchNumberConcat(a: string, rest: string)
    requires a != "" && MatchNumber(a) == |a| && Ends(rest)
    ensures MatchNumber(a + rest) == |a|
  {
    assert (a + rest)[0] == a[0];
    if a[0] == '-' {
      assert (a + rest)[1..] == a[1..] + rest;
      MatchUnsignedConcat(a[1..], rest);
    } else {
      MatchUnsignedConcat(a, rest);
    }
  }

  lemma ScalarIsMatched(text: string, rest: string)
    requires IsScalar(text) && Ends(rest)
    ensures MatchValue(text + rest) == |text|
  {
    var s := text + rest;
    if MatchNumber(text) == |text| {
      MatchNumberConcat(text, rest);
    } else {
      assert text <= s;
      assert s[0] == text[0];
    }
  }

  lemma {:induction false} UntilConcat(a: string, rest: string, stop: set<char>)
    requires forall i :: 0 <= i < |a| ==> a[i] !in stop
    requires rest != "" && rest[0] in stop
    ensures Until(a + rest, stop) == |a|
  {
    if a == "" {
      assert a + rest == rest;
    } else {
      assert (a + rest)[1..] == a[1..] + rest;
      UntilConcat(a[1..], rest, stop);
    }
  }

  lemma StringIsMatched(s: string, rest: string)
    requires Plain(s)
    ensures MatchString(Quoted(s) + rest) == |s| + 2
    ensures MatchValue(Quoted(s) + rest) == |s| + 2
  {
    var text := Quoted(s) + rest;
    assert text[1..] == s + ("\"" + rest);
    UntilConcat(s, "\"" + rest, {'"'});
  }

  predicate AllDigits(s: string) { s != "" && forall i :: 0 <= i < |s| ==> s[i] in "0123456789" }

  lemma {:induction false} DigitsAreAll(s: string)
    requires forall i :: 0 <= i < |s| ==> s[i] in "0123456789"
    ensures Digits(s) == |s|
  {
    if s != "" { DigitsAreAll(s[1..]); }
  }

  lemma UnsignedIs(whole: string, fraction: string)
    requires AllDigits(whole) && AllDigits(fraction)
    ensures MatchUnsigned(whole) == |whole|
    ensures MatchUnsigned(whole + ("." + fraction)) == |whole| + 1 + |fraction|
  {
    DigitsAreAll(whole);
    DigitsAreAll(fraction);
    var s := whole + ("." + fraction);
    DigitsConcat(whole, "." + fraction);
    assert s[|whole|] == '.';
    assert s[|whole| + 1..] == fraction;
  }

  /** Numbers are scalars: an optional sign, digits, and optionally a point with digits behind it. */
  lemma NumbersAreScalars(sign: string, whole: string, fraction: string)
    requires sign in {"", "-"} && AllDigits(whole) && AllDigits(fraction)
    ensures IsScalar(sign + whole) && IsScalar(sign + (whole + ("." + fraction)))
  {
    UnsignedIs(whole, fraction);
    var integer, decimal := sign + whole, sign + (whole + ("." + fraction));
    assert whole[0] != '-';
    if sign == "-" {
      assert integer[0] == decimal[0] == '-';
      assert integer[1..] == whole && decimal[1..] == whole + ("." + fraction);
    } else {
      assert integer == whole && decimal == whole + ("." + fraction);
    }
  }

  predicate NoBrace(s: string) { forall i :: 0 <= i < |s| ==> s[i] != '{' && s[i] != '}' }

  lemma ScalarHasNoBrace(text: string)
    requires IsScalar(text)
    ensures NoBrace(text) && Inert(text)
  {
    if MatchNumber(text) == |text| {
      NumberChars(text);
    }
  }

  lemma {:induction false} DigitsAre(s: string)
    ensures forall i :: 0 <= i < Digits(s) ==> IsDigit(s[i])
  {
    if s != "" && IsDigit(s[0]) {
      DigitsAre(s[1..]);
    }
  }

  lemma UnsignedChars(s: string)
    requires MatchUnsigned(s) == |s|
    ensures forall i :: 0 <= i < |s| ==> IsDigit(s[i]) || s[i] == '.'
  {
    DigitsAre(s);
    var d := Digits(s);
    if d < |s| {
      DigitsAre(s[d + 1..]);
      assert forall i :: d < i < |s| ==> s[i] == s[d + 1..][i - d - 1];
    }
  }

  lemma NumberChars(s: string)
    requires MatchNumber(s) == |s|
    ensures forall i :: 0 <= i < |s| ==> IsDigit(s[i]) || s[i] == '.' || s[i] == '-'
  {
    if s != "" && s[0] == '-' {
      UnsignedChars(s[1..]);
      assert forall i :: 0 < i < |s| ==> s[i] == s[1..][i - 1];
    } else {
      UnsignedChars(s);
    }
  }

  lemma NoObjectNoBrace(v: Json)
    requires Printable(v) && NoObject(v)
    ensures NoBrace(Print(v))
  {
    match v
    case Scalar(text) => ScalarHasNoBrace(text);
    case Text(_) =>
    case Arr(items) => NoObjectItemsNoBrace(items);
  }

  lemma NoObjectItemsNoBrace(items: Items)
    requires PrintableItems(items) && NoObjectItems(items)
    ensures NoBrace(PrintItems(items)) && NoBrace(PrintMoreItems(items))
  {
    if items.Item? {
      NoObjectNoBrace(items.head);
      NoObjectItemsNoBrace(items.tail);
    }
  }

  lemma FlatNoBrace(members: Members)
    requires PrintableMembers(members) && FlatMembers(members)
    ensures NoBrace(PrintMembers(members)) && NoBrace(PrintMoreMembers(members))
  {
    match members
    case NoMembers =>
    case Member(_, value, tail) =>
      NoObjectNoBrace(value);
      FlatNoBrace(tail);
    case Gap(tail) => FlatNoBrace(tail);
  }

  // Of the alternatives only the last starts with a brace.
  lemma BraceIsFlat(s: string)
    requires s != "" && s[0] == '{'
    ensures MatchValue(s) == MatchFlat(s)
  {
  }

  lemma FlatIsMatched(members: Members, rest: string)
    requires PrintableMembers(members) && FlatMembers(members)
    ensures MatchValue(Print(Obj(members)) + rest) == |Print(Obj(members))|
  {
    hide MatchValue, PrintMembers;
    var inner := PrintMembers(members);
    var text := Print(Obj(members)) + rest;
    FlatNoBrace(members);
    BraceIsFlat(text);
    assert text[1..] == inner + ("}" + rest);
    UntilConcat(inner, "}" + rest, {'{', '}'});
    assert text[1 + |inner|] == '}';
    assert text[0] == '{';
  }

  /** Every strippable value is matched exactly, whatever value-ending text follows. */
  lemma ValueIsMatched(v: Json, rest: string)
    requires Printable(v) && Strippable(v) && Ends(rest)
    ensures MatchValue(Print(v) + rest) == |Print(v)| > 0
  {
    match v
    case Scalar(text) => ScalarIsMatched(text, rest);
    case Text(s) => StringIsMatched(s, rest);
    case Obj(members) => FlatIsMatched(members, rest);
  }

  // ---- Arrays and objects with an object inside are not matched at all ----

  lemma {:induction false} UntilSkip(a: string, rest: string, stop: set<char>)
    requires forall i :: 0 <= i < |a| ==> a[i] !in stop
    ensures Until(a + rest, stop) == |a| + Until(rest, stop)
  {
    if a == "" {
      assert a + rest == rest;
    } else {
      assert (a + rest)[1..] == a[1..] + rest;
      UntilSkip(a[1..], rest, stop);
    }
  }

  // The first brace of s is an opening one.
  predicate OpensFirst(s: string) {
    var n := Until(s, {'{', '}'});
    n < |s| && s[n] == '{'
  }

  lemma OpensAfter(a: string, rest: string)
    requires NoBrace(a) && OpensFirst(rest)
    ensures OpensFirst(a + rest)
  {
    UntilSkip(a, rest, {'{', '}'});
  }

  lemma ObjectOpensFirst(v: Json, rest: string)
    requires Printable(v) && !NoObject(v)
    ensures OpensFirst(Print(v) + rest)
    decreases v, 2
  {
    match v
    case Arr(items) =>
      ItemsOpenFirst(items, "]" + rest);
      OpensAfter("[", PrintItems(items) + ("]" + rest));
      assert Print(v) + rest == "[" + (PrintItems(items) + ("]" + rest));
    case Obj(members) =>
      assert (Print(v) + rest)[0] == '{';
  }

  lemma ItemsOpenFirst(items: Items, rest: string)
    requires PrintableItems(items) && !NoObjectItems(items)
    ensures OpensFirst(PrintItems(items) + rest)
    decreases items, 1
  {
    var head, more := Print(items.head), PrintMoreItems(items.tail);
    assert PrintItems(items) + rest == head + (more + rest);
    if NoObject(items.head) {
      NoObjectNoBrace(items.head);
      ItemsOpenFirst(items.tail, rest);
      OpensAfter(",", PrintItems(items.tail) + rest);
      assert more + rest == "," + (PrintItems(items.tail) + rest);
      OpensAfter(head, more + rest);
    } else {
      ObjectOpensFirst(items.head, more + rest);
    }
  }

  lemma MembersOpenFirst(members: Members, rest: string)
    requires PrintableMembers(members) && !FlatMembers(members)
    ensures OpensFirst(PrintMembers(members) + rest)
    decreases members, 1
  {
    if members.Gap? {
      GapOpensFirst(members.tail, rest);
      return;
    }
    var key, value, more := Quoted(members.key) + ":", Print(members.value), PrintMoreMembers(members.tail);
    assert PrintMembers(members) + rest == key + (value + (more + rest));
    if NoObject(members.value) {
      NoObjectNoBrace(members.value);
      MembersOpenFirst(members.tail, rest);
      OpensAfter(",", PrintMembers(members.tail) + rest);
      assert more + rest == "," + (PrintMembers(members.tail) + rest);
      OpensAfter(value, more + rest);
    } else {
      ObjectOpensFirst(members.value, more + rest);
    }
    OpensAfter(key, value + (more + rest));
  }

  lemma GapOpensFirst(tail: Members, rest: string)
    requires PrintableMembers(tail) && !FlatMembers(tail)
    ensures OpensFirst(PrintMembers(Gap(tail)) + rest)
    decreases tail, 2
  {
    MembersOpenFirst(tail, rest);
    OpensAfter(",", PrintMembers(tail) + rest);
    assert PrintMembers(Gap(tail)) + rest == "," + (PrintMembers(tail) + rest);
  }

  /** A value that is not strippable is not matched, not even in part. */
  lemma ValueIsNotMatched(v: Json, rest: string)
    requires Printable(v) && !Strippable(v)
    ensures MatchValue(Print(v) + rest) == 0
  {
    var text := Print(v) + rest;
    match v
    case Arr(_) => assert text[0] == '[';
    case Obj(members) =>
      assert text[0] == '{';
      assert text[1..] == PrintMembers(members) + ("}" + rest);
      MembersOpenFirst(members, "}" + rest);
      BraceIsFlat(text);
  }

  // How printed values begin.
  lemma ValueStart(v: Json)
    requires Printable(v)
    ensures Print(v) != "" && !IsSpace(Print(v)[0]) && Print(v)[0] != ','
    ensures Print(v)[0] == '"' <==> v.Text?
  {
    if v.Scalar? {
      ScalarHasNoBrace(v.text);
      if MatchNumber(v.text) == |v.text| { NumberChars(v.text); }
    }
  }
}

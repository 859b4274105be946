/** What all thirteen passes do to a body, read off the body itself: after how many passes each member is gone, when
    the result is JSON, and what still shows in it. */
module MaskTimes {
  import opened Sums
  import opened Regex
  import opened Json
  import opened Scan
  import opened Masking
  import opened MaskTree
  import opened MaskEdges
  import opened MaskFilter
  import opened MaskIntact

  const FIELDS: seq<string> := ["provider", "cost", "cost_details", "is_byok"]
  const PASSES: nat := 13
  const NEVER: nat := 14

  // The passes in their order: the model first, then three for each field.
  function Pass(n: nat, id: string): Pattern
    requires n < PASSES
  {
    if n == 0 then Model(id)
    else
      var f := FIELDS[(n - 1) / 3];
      if n % 3 == 1 then Lead(f) else if n % 3 == 2 then Trail(f) else Bare(f)
  }

  // The first pass about the key.
  function Turn(key: string): nat {
    if key == "provider" then 1 else if key == "cost" then 4 else if key == "cost_details" then 7
    else if key == "is_byok" then 10 else PASSES
  }

  function Later(m: nat, n: nat): nat { if m < n then n else m }

  // ---- The body, in numbers of passes ----

  // After how many passes a value is a scalar, a string or a flat object.
  function Ready(v: Json): nat {
    match v
    case Scalar(_) => 0
    case Text(_) => 0
    case Arr(_) => NEVER
    case Obj(members) => ReadyMembers(members, 0)
  }

  // `before` tells after how many passes nothing is left of what stands before these members in their object.
  function ReadyMembers(members: Members, before: nat): nat
    decreases members, 3
  {
    match members
    case NoMembers => 0
    case Member(_, value, tail) =>
      Later(if NoObject(value) then 0 else Ends(members, before), ReadyMembers(tail, Past(members, before)))
    case Gap(tail) => ReadyMembers(tail, NEVER)
  }

  // After how many passes the first member is deleted: by the first pass about its key at which it is strippable,
  // if it has a comma in front, by the next one, if it has one behind, or by the last one.
  function Ends(members: Members, before: nat): nat
    requires members.Member?
    decreases members, 0
  {
    var Member(key, value, tail) := members;
    var turn, ready := Turn(key), Ready(value);
    if turn == PASSES then NEVER
    else if ready <= turn < before then turn + 1
    else if ready <= turn + 1 < Empty(tail, NEVER) then turn + 2
    else if ready <= turn + 2 then turn + 3
    else NEVER
  }

  // The last pass about its key deletes it, without a comma.
  predicate Gaps(members: Members, before: nat)
    requires members.Member?
    decreases members, 1
  {
    Ends(members, before) == Turn(members.key) + 3
  }

  // After how many passes nothing is left of the first member and of what stands before it.
  function Past(members: Members, before: nat): nat
    requires members.Member?
    decreases members, 2
  {
    if Gaps(members, before) then NEVER else Later(before, Ends(members, before))
  }

  // After how many passes nothing is left of the members.
  function Empty(members: Members, before: nat): nat
    decreases members, 3
  {
    match members
    case NoMembers => 0
    case Member(_, _, tail) =>
      if Gaps(members, before) then NEVER
      else Later(Ends(members, before), Empty(tail, Past(members, before)))
    case Gap(_) => NEVER
  }

  // A member deleted without a comma is in the end alone in its object.
  predicate Whole(v: Json) {
    match v
    case Scalar(_) => true
    case Text(_) => true
    case Arr(items) => WholeItems(items)
    case Obj(members) => WholeMembers(members, 0)
  }

  predicate WholeItems(items: Items) {
    items.Item? ==> Whole(items.head) && WholeItems(items.tail)
  }

  predicate WholeMembers(members: Members, before: nat) {
    match members
    case NoMembers => true
    case Member(_, value, tail) =>
      if Gaps(members, before) then before <= PASSES && Empty(tail, NEVER) <= PASSES
      else (Ends(members, before) == NEVER ==> Whole(value)) && WholeMembers(tail, Past(members, before))
    case Gap(tail) => before <= PASSES && Empty(tail, NEVER) <= PASSES
  }

  // A member with this key is never deleted, nor is any it is in.
  predicate Remains(f: string, v: Json) {
    match v
    case Scalar(_) => false
    case Text(_) => false
    case Arr(items) => RemainsItems(f, items)
    case Obj(members) => RemainsMembers(f, members, 0)
  }

  predicate RemainsItems(f: string, items: Items) {
    items.Item? && (Remains(f, items.head) || RemainsItems(f, items.tail))
  }

  predicate RemainsMembers(f: string, members: Members, before: nat) {
    match members
    case NoMembers => false
    case Member(key, value, tail) =>
      || (Ends(members, before) == NEVER && (key == f || Remains(f, value)))
      || RemainsMembers(f, tail, Past(members, before))
    case Gap(tail) => RemainsMembers(f, tail, NEVER)
  }

  // ---- The passes, one after the other ----

  function After(n: nat, id: string, v: Json): Json
    requires n <= PASSES
  {
    if n == 0 then v else Apply(Pass(n - 1, id), After(n - 1, id, v))
  }

  function AfterItems(n: nat, id: string, items: Items): Items
    requires n <= PASSES
  {
    if n == 0 then items else ApplyItems(Pass(n - 1, id), AfterItems(n - 1, id, items))
  }

  function AfterMembers(n: nat, id: string, members: Members, before: nat): Members
    requires n <= PASSES
  {
    if n == 0 then members
    else ApplyMembers(Pass(n - 1, id), AfterMembers(n - 1, id, members, before), before <= n - 1)
  }

  // The value of a member: the first pass rewrites the model.
  function AfterValue(n: nat, id: string, key: string, value: Json): Json
    requires n <= PASSES
  {
    if key == "model" && value.Text? && n > 0 then Text(id) else After(n, id, value)
  }

  lemma {:induction false} AfterIs(n: nat, id: string, v: Json)
    requires n <= PASSES
    ensures
      After(n, id, v) == match v
        case Scalar(_) => v
        case Text(_) => v
        case Arr(items) => Arr(AfterItems(n, id, items))
        case Obj(members) => Obj(AfterMembers(n, id, members, 0))
  {
    hide Pass;
    if n > 0 { AfterIs(n - 1, id, v); }
  }

  lemma {:induction false} AfterItemsIs(n: nat, id: string, items: Items)
    requires n <= PASSES
    ensures
      AfterItems(n, id, items) == match items
        case NoItems => NoItems
        case Item(head, tail) => Item(After(n, id, head), AfterItems(n, id, tail))
  {
    if n > 0 { AfterItemsIs(n - 1, id, items); }
  }

  lemma {:induction false} AfterNone(n: nat, id: string, before: nat)
    requires n <= PASSES
    ensures AfterMembers(n, id, NoMembers, before) == NoMembers
  {
    if n > 0 { AfterNone(n - 1, id, before); }
  }

  lemma {:induction false} AfterGap(n: nat, id: string, tail: Members, before: nat)
    requires n <= PASSES
    ensures AfterMembers(n, id, Gap(tail), before) == Gap(AfterMembers(n, id, tail, NEVER))
  {
    hide Pass;
    if n > 0 { AfterGap(n - 1, id, tail, before); }
  }

  // What has been left before all along is the same however long it is left.
  lemma {:induction false} LongBefore(n: nat, id: string, members: Members, before: nat, before': nat)
    requires n <= PASSES && n <= before && n <= before'
    ensures AfterMembers(n, id, members, before) == AfterMembers(n, id, members, before')
  {
    hide Pass;
    if n > 0 { LongBefore(n - 1, id, members, before, before'); }
  }

  lemma {:induction false} AfterKeepsNoObject(n: nat, id: string, key: string, value: Json)
    requires n <= PASSES
    ensures NoObject(AfterValue(n, id, key, value)) <==> NoObject(value)
    ensures NoObject(After(n, id, value)) <==> NoObject(value)
  {
    if n > 0 {
      AfterKeepsNoObject(n - 1, id, key, value);
      NoObjectStays(Pass(n - 1, id), After(n - 1, id, value));
    }
  }

  // Which passes are about a key.
  lemma PassesOfKey(n: nat, id: string, key: string)
    requires n < PASSES
    ensures
      var p, turn := Pass(n, id), Turn(key);
      && (p.Model? <==> n == 0) && (p.Model? ==> p.id == id)
      && (!p.Model? && p.field == key <==> turn <= n <= turn + 2)
      && (turn <= n <= turn + 2 ==> (p.Lead? <==> n == turn) && (p.Trail? <==> n == turn + 1))
  {
    if n > 0 {
      var k := (n - 1) / 3;
      assert k == 0 || k == 1 || k == 2 || k == 3;
    }
  }

  // ---- The numbers are right ----

  lemma ReadyIs(n: nat, id: string, v: Json)
    requires n <= PASSES
    ensures Strippable(After(n, id, v)) <==> Ready(v) <= n
    decreases v, 4, 0
  {
    AfterIs(n, id, v);
    if v.Obj? { FlatIs(n, id, v.members, 0); }
  }

  lemma FlatIs(n: nat, id: string, members: Members, before: nat)
    requires n <= PASSES
    ensures FlatMembers(AfterMembers(n, id, members, before)) <==> ReadyMembers(members, before) <= n
    decreases members, 2, 0
  {
    match members
    case NoMembers => AfterNone(n, id, before);
    case Gap(tail) =>
      AfterGap(n, id, tail, before);
      FlatIs(n, id, tail, NEVER);
    case Member(key, value, tail) =>
      MemberIs(n, id, members, before);
      FlatIs(n, id, tail, Past(members, before));
      AfterKeepsNoObject(n, id, key, value);
  }

  lemma EmptyIs(n: nat, id: string, members: Members, before: nat)
    requires n <= PASSES
    ensures AfterMembers(n, id, members, before).NoMembers? <==> Empty(members, before) <= n
    decreases members, 2, 0
  {
    match members
    case NoMembers => AfterNone(n, id, before);
    case Gap(tail) => AfterGap(n, id, tail, before);
    case Member(_, _, tail) =>
      MemberIs(n, id, members, before);
      EmptyIs(n, id, tail, Past(members, before));
  }

  // The first member stays until it ends, and the others go on as if they stood alone.
  function Split(n: nat, id: string, members: Members, before: nat): Members
    requires members.Member? && n <= PASSES
  {
    var tail := AfterMembers(n, id, members.tail, Past(members, before));
    if n < Ends(members, before) then Member(members.key, AfterValue(n, id, members.key, members.value), tail)
    else if Gaps(members, before) then Gap(tail)
    else tail
  }

  lemma SplitBegins(id: string, members: Members, before: nat)
    requires members.Member?
    ensures Split(0, id, members, before) == members == AfterMembers(0, id, members, before)
  {
  }

  lemma AfterNext(n: nat, id: string, members: Members, before: nat)
    requires n < PASSES
    ensures AfterMembers(n + 1, id, members, before)
            == ApplyMembers(Pass(n, id), AfterMembers(n, id, members, before), before <= n)
  {
  }

  lemma {:induction false} MemberIs(n: nat, id: string, members: Members, before: nat)
    requires members.Member? && n <= PASSES
    ensures AfterMembers(n, id, members, before) == Split(n, id, members, before)
    decreases members, 1, n
  {
    hide Split, AfterMembers, ApplyMembers, Pass;
    if n == 0 {
      SplitBegins(id, members, before);
    } else {
      MemberIs(n - 1, id, members, before);
      OnePass(n - 1, id, members, before);
      AfterNext(n - 1, id, members, before);
    }
  }

  lemma OnePass(n: nat, id: string, members: Members, before: nat)
    requires members.Member? && n < PASSES
    ensures ApplyMembers(Pass(n, id), Split(n, id, members, before), before <= n) == Split(n + 1, id, members, before)
    decreases members, 0, 1
  {
    var Member(key, value, tail) := members;
    PassesOfKey(n, id, key);
    if n < Ends(members, before) {
      DeletesIs(n, id, members, before);
    }
  }

  lemma DeletesIs(n: nat, id: string, members: Members, before: nat)
    requires members.Member? && n < PASSES && n < Ends(members, before)
    ensures
      var last := AfterMembers(n, id, members.tail, Past(members, before)).NoMembers?;
      Deletes(Pass(n, id), members.key, AfterValue(n, id, members.key, members.value), before <= n, last)
      <==> n + 1 == Ends(members, before)
    decreases members, 0, 0
  {
    var Member(key, value, tail) := members;
    PassesOfKey(n, id, key);
    ReadyIs(n, id, value);
    LongBefore(n, id, tail, Past(members, before), NEVER);
    EmptyIs(n, id, tail, NEVER);
  }

  lemma LoneIs(id: string, v: Json)
    ensures Lone(After(PASSES, id, v)) <==> Whole(v)
    decreases v, 1
  {
    AfterIs(PASSES, id, v);
    match v
    case Scalar(_) =>
    case Text(_) =>
    case Arr(items) => LoneItemsIs(id, items);
    case Obj(members) => LoneMembersIs(id, members, 0);
  }

  lemma LoneItemsIs(id: string, items: Items)
    ensures LoneItems(AfterItems(PASSES, id, items)) <==> WholeItems(items)
    decreases items, 0
  {
    AfterItemsIs(PASSES, id, items);
    if items.Item? {
      LoneIs(id, items.head);
      LoneItemsIs(id, items.tail);
    }
  }

  lemma LoneMembersIs(id: string, members: Members, before: nat)
    ensures LoneMembers(AfterMembers(PASSES, id, members, before), before <= PASSES) <==> WholeMembers(members, before)
    decreases members, 0
  {
    match members
    case NoMembers => AfterNone(PASSES, id, before);
    case Gap(tail) =>
      AfterGap(PASSES, id, tail, before);
      EmptyIs(PASSES, id, tail, NEVER);
    case Member(key, value, tail) =>
      MemberIs(PASSES, id, members, before);
      EmptyIs(PASSES, id, tail, NEVER);
      LoneIs(id, value);
      LoneMembersIs(id, tail, Past(members, before));
  }

  lemma ShowsIs(f: string, id: string, v: Json)
    ensures HasKey(f, After(PASSES, id, v)) <==> Remains(f, v)
    decreases v, 1
  {
    AfterIs(PASSES, id, v);
    match v
    case Scalar(_) =>
    case Text(_) =>
    case Arr(items) => ShowsItemsIs(f, id, items);
    case Obj(members) => ShowsMembersIs(f, id, members, 0);
  }

  lemma ShowsItemsIs(f: string, id: string, items: Items)
    ensures ItemsHaveKey(f, AfterItems(PASSES, id, items)) <==> RemainsItems(f, items)
    decreases items, 0
  {
    AfterItemsIs(PASSES, id, items);
    if items.Item? {
      ShowsIs(f, id, items.head);
      ShowsItemsIs(f, id, items.tail);
    }
  }

  lemma ShowsMembersIs(f: string, id: string, members: Members, before: nat)
    ensures MembersHaveKey(f, AfterMembers(PASSES, id, members, before)) <==> RemainsMembers(f, members, before)
    decreases members, 0
  {
    match members
    case NoMembers => AfterNone(PASSES, id, before);
    case Gap(tail) =>
      AfterGap(PASSES, id, tail, before);
      ShowsMembersIs(f, id, tail, NEVER);
    case Member(key, value, tail) =>
      MemberIs(PASSES, id, members, before);
      ShowsIs(f, id, value);
      ShowsMembersIs(f, id, tail, Past(members, before));
  }

  // ---- The sanitizer ----

  // Three passes are one field.
  lemma AfterField(k: nat, id: string, v: Json)
    requires k < 4
    ensures After(3 * k + 4, id, v) == Strip(FIELDS[k], After(3 * k + 1, id, v))
  {
    var n := 3 * k + 1;
    assert Pass(n, id) == Lead(FIELDS[k]) && Pass(n + 1, id) == Trail(FIELDS[k]) && Pass(n + 2, id) == Bare(FIELDS[k]);
    assert After(n + 1, id, v) == Apply(Pass(n, id), After(n, id, v));
    assert After(n + 2, id, v) == Apply(Pass(n + 1, id), After(n + 1, id, v));
    assert After(n + 3, id, v) == Apply(Pass(n + 2, id), After(n + 2, id, v));
  }

  lemma SanitizedIsAfter(id: string, v: Json)
    ensures Sanitized(id, v) == After(PASSES, id, v)
  {
    hide Strip, Apply;
    assert After(1, id, v) == Apply(Model(id), v) by { assert After(0, id, v) == v; }
    AfterField(0, id, v);
    AfterField(1, id, v);
    AfterField(2, id, v);
    AfterField(3, id, v);
  }

  /** When the sanitized text is valid JSON, decided on the body: exactly when every member that some pass deletes
      without a comma is in the end alone in its object. No pass need be run: the numbers of passes are computed in
      one walk over the tree. */
  lemma SanitizeIsValidOnWhole(v: Json, id: string)
    requires Printable(v) && Plain(id)
    ensures ValidJson(Sanitize(Print(v), id)) <==> Whole(v)
    ensures WellFormed(v) && AllSettled(v) ==> Whole(v)
  {
    hide Sanitize, Sanitized, AllSettled;
    SanitizeIsValidIff(v, id);
    SanitizedIsAfter(id, v);
    LoneIs(id, v);
  }

  /** And which keys, internal or not, are found in that JSON. */
  lemma SanitizedShowsIff(f: string, v: Json, id: string, w: Json)
    requires Printable(v) && Plain(id)
    requires WellFormed(w) && Print(w) == Sanitize(Print(v), id)
    ensures HasKey(f, w) <==> Remains(f, v)
  {
    hide Sanitize, Sanitized, AllSettled;
    assert ValidJson(Sanitize(Print(v), id));
    SanitizeIsValidIff(v, id);
    SanitizeIsSanitized(v, id);
    CloseIsWellFormed(Sanitized(id, v));
    PrintIsInjective(w, Close(Sanitized(id, v)));
    CloseKeepsKeys(f, Sanitized(id, v));
    SanitizedIsAfter(id, v);
    ShowsIs(f, id, v);
  }
}

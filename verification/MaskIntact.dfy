/** What stripping a field does to a body, read off the body itself: when the result is JSON, and what of the field
    still shows. */
module MaskIntact {
  import opened Regex
  import opened Json
  import opened Scan
  import opened Masking
  import opened MaskTree
  import opened MaskEdges

  // ---- The body, member by member ----

  // The first pass takes the member along: it is not the first of its object.
  predicate Cut(f: string, key: string, value: Json, first: bool) { key == f && Strippable(value) && !first }

  predicate AllCut(f: string, members: Members) {
    match members
    case NoMembers => true
    case Member(key, value, tail) => Cut(f, key, value, false) && AllCut(f, tail)
    case Gap(_) => false
  }

  // A scalar, a string, or an object that is flat but for members of the field that are cut.
  predicate Freed(f: string, v: Json) {
    match v
    case Scalar(_) => true
    case Text(_) => true
    case Arr(_) => false
    case Obj(members) => FreedMembers(f, members, true)
  }

  predicate FreedMembers(f: string, members: Members, first: bool) {
    match members
    case NoMembers => true
    case Member(key, value, tail) => (NoObject(value) || Cut(f, key, value, first)) && FreedMembers(f, tail, false)
    case Gap(tail) => FreedMembers(f, tail, false)
  }

  // The first two passes take the member along: it is cut, or it is freed and something stays after it.
  predicate Gone(f: string, members: Members, first: bool)
    requires members.Member?
  {
    || Cut(f, members.key, members.value, first)
    || (members.key == f && Freed(f, members.value) && !AllCut(f, members.tail))
  }

  predicate AllGone(f: string, members: Members) {
    match members
    case NoMembers => true
    case Member(_, _, tail) => Gone(f, members, false) && AllGone(f, tail)
    case Gap(_) => false
  }

  // The same as Freed, but for members that are gone.
  predicate Bared(f: string, v: Json) {
    match v
    case Scalar(_) => true
    case Text(_) => true
    case Arr(_) => false
    case Obj(members) => BaredMembers(f, members, true)
  }

  predicate BaredMembers(f: string, members: Members, first: bool) {
    match members
    case NoMembers => true
    case Member(_, value, tail) => (NoObject(value) || Gone(f, members, first)) && BaredMembers(f, tail, false)
    case Gap(tail) => BaredMembers(f, tail, false)
  }

  // A member of the field that is not gone but is bared in the end is the only one of its object that stays.
  predicate Intact(f: string, v: Json) {
    match v
    case Scalar(_) => true
    case Text(_) => true
    case Arr(items) => IntactItems(f, items)
    case Obj(members) => IntactMembers(f, members, true, false)
  }

  predicate IntactItems(f: string, items: Items) {
    items.Item? ==> Intact(f, items.head) && IntactItems(f, items.tail)
  }

  // `before` tells whether some member before these stays.
  predicate IntactMembers(f: string, members: Members, first: bool, before: bool) {
    match members
    case NoMembers => true
    case Member(key, value, tail) =>
      if Gone(f, members, first) then IntactMembers(f, tail, false, before)
      else if key == f && Bared(f, value) then !before && AllGone(f, tail)
      else Intact(f, value) && IntactMembers(f, tail, false, true)
    case Gap(_) => false
  }

  // A member of the field that stays.
  predicate Shows(f: string, v: Json) {
    match v
    case Scalar(_) => false
    case Text(_) => false
    case Arr(items) => ShowsItems(f, items)
    case Obj(members) => ShowsMembers(f, members, true)
  }

  predicate ShowsItems(f: string, items: Items) {
    items.Item? && (Shows(f, items.head) || ShowsItems(f, items.tail))
  }

  predicate ShowsMembers(f: string, members: Members, first: bool) {
    match members
    case NoMembers => false
    case Member(key, value, tail) =>
      || (!Gone(f, members, first) && (if key == f then !Bared(f, value) else Shows(f, value)))
      || ShowsMembers(f, tail, false)
    case Gap(tail) => ShowsMembers(f, tail, false)
  }

  // ---- What the passes make of it ----

  lemma NoObjectStays(p: Pattern, v: Json)
    ensures NoObject(Apply(p, v)) <==> NoObject(v)
  {
    if v.Arr? { NoObjectItemsStay(p, v.items); }
  }

  lemma NoObjectItemsStay(p: Pattern, items: Items)
    ensures NoObjectItems(ApplyItems(p, items)) <==> NoObjectItems(items)
  {
    if items.Item? {
      NoObjectStays(p, items.head);
      NoObjectItemsStay(p, items.tail);
    }
  }

  // Only the first pass asks which member comes first.
  lemma FirstIsIgnored(p: Pattern, members: Members)
    requires !p.Lead?
    ensures ApplyMembers(p, members, true) == ApplyMembers(p, members, false)
  {
  }

  lemma {:induction false} LeadEmpties(f: string, members: Members)
    requires WellFormedMembers(members)
    ensures ApplyMembers(Lead(f), members, false).NoMembers? <==> AllCut(f, members)
  {
    if members.Member? { LeadEmpties(f, members.tail); }
  }

  lemma LeadFrees(f: string, v: Json)
    requires WellFormed(v)
    ensures Strippable(Apply(Lead(f), v)) <==> Freed(f, v)
  {
    if v.Obj? { LeadFreesMembers(f, v.members, true); }
  }

  lemma {:induction false} LeadFreesMembers(f: string, members: Members, first: bool)
    requires WellFormedMembers(members)
    ensures FlatMembers(ApplyMembers(Lead(f), members, first)) <==> FreedMembers(f, members, first)
  {
    if members.Member? {
      NoObjectStays(Lead(f), members.value);
      LeadFreesMembers(f, members.tail, false);
    }
  }

  // The first two passes on the members of an object.
  function Two(f: string, members: Members, first: bool): Members {
    ApplyMembers(Trail(f), ApplyMembers(Lead(f), members, first), true)
  }

  function TwoOf(f: string, v: Json): Json { Apply(Trail(f), Apply(Lead(f), v)) }

  // On one member: it goes, or its value has gone through both.
  lemma TwoIs(f: string, members: Members, first: bool)
    requires members.Member? && WellFormedMembers(members)
    ensures Two(f, members, first)
            == if Gone(f, members, first) then Two(f, members.tail, false)
               else Member(members.key, TwoOf(f, members.value), Two(f, members.tail, false))
  {
    var Member(key, value, tail) := members;
    LeadEmpties(f, tail);
    LeadFrees(f, value);
    FirstIsIgnored(Trail(f), ApplyMembers(Lead(f), tail, false));
  }

  lemma TwoBares(f: string, v: Json)
    requires WellFormed(v)
    ensures Strippable(TwoOf(f, v)) <==> Bared(f, v)
  {
    if v.Obj? { TwoBaresMembers(f, v.members, true); }
  }

  lemma {:induction false} TwoBaresMembers(f: string, members: Members, first: bool)
    requires WellFormedMembers(members)
    ensures FlatMembers(Two(f, members, first)) <==> BaredMembers(f, members, first)
  {
    if members.Member? {
      TwoIs(f, members, first);
      NoObjectStays(Lead(f), members.value);
      NoObjectStays(Trail(f), Apply(Lead(f), members.value));
      TwoBaresMembers(f, members.tail, false);
    }
  }

  // All three passes on the members of an object.
  function Three(f: string, members: Members, first: bool): Members {
    ApplyMembers(Bare(f), Two(f, members, first), true)
  }

  lemma ThreeIs(f: string, members: Members, first: bool)
    requires members.Member? && WellFormedMembers(members)
    ensures Three(f, members, first)
            == if Gone(f, members, first) then Three(f, members.tail, false)
               else if members.key == f && Bared(f, members.value) then Gap(Three(f, members.tail, false))
               else Member(members.key, Strip(f, members.value), Three(f, members.tail, false))
  {
    TwoIs(f, members, first);
    TwoBares(f, members.value);
    FirstIsIgnored(Bare(f), Two(f, members.tail, false));
  }

  lemma {:induction false} ThreeEmpties(f: string, members: Members)
    requires WellFormedMembers(members)
    ensures Three(f, members, false).NoMembers? <==> AllGone(f, members)
  {
    if members.Member? {
      ThreeIs(f, members, false);
      ThreeEmpties(f, members.tail);
    }
  }

  lemma StripIs(f: string, v: Json)
    ensures v.Obj? ==> Strip(f, v) == Obj(Three(f, v.members, true))
    ensures v.Scalar? || v.Text? ==> Strip(f, v) == v
  {
  }

  lemma StripIsLoneIff(f: string, v: Json)
    requires WellFormed(v)
    ensures Lone(Strip(f, v)) <==> Intact(f, v)
  {
    StripIs(f, v);
    match v
    case Scalar(_) =>
    case Text(_) =>
    case Arr(items) => StripItemsAreLoneIff(f, items);
    case Obj(members) => StripMembersAreLoneIff(f, members, true, false);
  }

  function ThreeItems(f: string, items: Items): Items {
    ApplyItems(Bare(f), ApplyItems(Trail(f), ApplyItems(Lead(f), items)))
  }

  lemma StripItemsAreLoneIff(f: string, items: Items)
    requires WellFormedItems(items)
    ensures LoneItems(ThreeItems(f, items)) <==> IntactItems(f, items)
  {
    if items.Item? {
      StripIsLoneIff(f, items.head);
      StripItemsAreLoneIff(f, items.tail);
    }
  }

  lemma StripMembersAreLoneIff(f: string, members: Members, first: bool, before: bool)
    requires WellFormedMembers(members)
    ensures LoneMembers(Three(f, members, first), !before) <==> IntactMembers(f, members, first, before)
  {
    if members.Member? {
      ThreeIs(f, members, first);
      ThreeEmpties(f, members.tail);
      StripIsLoneIff(f, members.value);
      hide Three, Strip;
      StripMembersAreLoneIff(f, members.tail, false, before);
      StripMembersAreLoneIff(f, members.tail, false, true);
    }
  }

  lemma StripShowsIff(f: string, v: Json)
    requires WellFormed(v)
    ensures HasKey(f, Strip(f, v)) <==> Shows(f, v)
  {
    StripIs(f, v);
    match v
    case Scalar(_) =>
    case Text(_) =>
    case Arr(items) => StripItemsShowIff(f, items);
    case Obj(members) => StripMembersShowIff(f, members, true);
  }

  lemma StripItemsShowIff(f: string, items: Items)
    requires WellFormedItems(items)
    ensures ItemsHaveKey(f, ThreeItems(f, items)) <==> ShowsItems(f, items)
  {
    if items.Item? {
      StripShowsIff(f, items.head);
      StripItemsShowIff(f, items.tail);
    }
  }

  lemma StripMembersShowIff(f: string, members: Members, first: bool)
    requires WellFormedMembers(members)
    ensures MembersHaveKey(f, Three(f, members, first)) <==> ShowsMembers(f, members, first)
  {
    if members.Member? {
      ThreeIs(f, members, first);
      StripShowsIff(f, members.value);
      hide Three, Strip;
      StripMembersShowIff(f, members.tail, false);
    }
  }

  /** The promise on stripField, decided on the body: the result is valid JSON exactly when the body is intact for
      the field. Bodies whose members of the field are all strippable, or hold no other, are. */
  lemma StripFieldIsValidOnIntact(f: string, v: Json)
    requires IsName(f) && WellFormed(v)
    ensures ValidJson(StripField(Print(v), f)) <==> Intact(f, v)
    ensures Settled(f, v) ==> Intact(f, v)
  {
    WellFormedPrints(v);
    StripFieldIsValidIff(f, v);
    StripIsLoneIff(f, v);
  }

  /** And what of the field still shows in that JSON, decided on the body too. */
  lemma StrippedFieldShowsIff(f: string, v: Json, w: Json)
    requires IsName(f) && WellFormed(v)
    requires WellFormed(w) && Print(w) == StripField(Print(v), f)
    ensures HasKey(f, w) <==> Shows(f, v)
  {
    WellFormedPrints(v);
    StripFieldIsValidIff(f, v);
    StripFieldIsStrip(f, v);
    assert ValidJson(StripField(Print(v), f));
    CloseIsWellFormed(Strip(f, v));
    PrintIsInjective(w, Close(Strip(f, v)));
    CloseKeepsKeys(f, Strip(f, v));
    StripShowsIff(f, v);
  }
}

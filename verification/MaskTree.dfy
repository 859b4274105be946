/** What the whole sanitizer does to a tree: field by field, and as one structural filter. */
module MaskTree {
  import opened Regex
  import opened Json
  import opened Scan
  import opened Masking

  const INTERNAL: set<string> := {"provider", "cost", "cost_details", "is_byok"}

  // ---- Gaps ----

  // The tree without its gaps.
  function Close(v: Json): Json {
    match v
    case Scalar(_) => v
    case Text(_) => v
    case Arr(items) => Arr(CloseItems(items))
    case Obj(members) => Obj(CloseMembers(members))
  }

  function CloseItems(items: Items): Items {
    match items
    case NoItems => NoItems
    case Item(head, tail) => Item(Close(head), CloseItems(tail))
  }

  function CloseMembers(members: Members): Members {
    match members
    case NoMembers => NoMembers
    case Member(key, value, tail) => Member(key, Close(value), CloseMembers(tail))
    case Gap(tail) => CloseMembers(tail)
  }

  // Every gap is alone in its object, so that no comma stands beside it.
  predicate Lone(v: Json) {
    match v
    case Scalar(_) => true
    case Text(_) => true
    case Arr(items) => LoneItems(items)
    case Obj(members) => LoneMembers(members, true)
  }

  predicate LoneItems(items: Items) {
    items.Item? ==> Lone(items.head) && LoneItems(items.tail)
  }

  predicate LoneMembers(members: Members, first: bool) {
    match members
    case NoMembers => true
    case Member(_, value, tail) => Lone(value) && LoneMembers(tail, false)
    case Gap(tail) => first && tail.NoMembers?
  }

  lemma ClosePrints(v: Json)
    requires Lone(v)
    ensures Print(Close(v)) == Print(v)
  {
    match v
    case Scalar(_) =>
    case Text(_) =>
    case Arr(items) => CloseItemsPrint(items);
    case Obj(members) => CloseMembersPrint(members, true);
  }

  lemma CloseItemsPrint(items: Items)
    requires LoneItems(items)
    ensures PrintItems(CloseItems(items)) == PrintItems(items)
    ensures PrintMoreItems(CloseItems(items)) == PrintMoreItems(items)
  {
    if items.Item? {
      ClosePrints(items.head);
      CloseItemsPrint(items.tail);
    }
  }

  lemma CloseMembersPrint(members: Members, first: bool)
    requires LoneMembers(members, first)
    ensures PrintMembers(CloseMembers(members)) == PrintMembers(members)
    ensures !first ==> PrintMoreMembers(CloseMembers(members)) == PrintMoreMembers(members)
  {
    if members.Member? {
      ClosePrints(members.value);
      CloseMembersPrint(members.tail, false);
    }
  }

  lemma CloseIsWellFormed(v: Json)
    requires Printable(v)
    ensures WellFormed(Close(v))
    ensures WellFormed(v) ==> Close(v) == v
  {
    match v
    case Scalar(_) =>
    case Text(_) =>
    case Arr(items) => CloseItemsAreWellFormed(items);
    case Obj(members) => CloseMembersAreWellFormed(members);
  }

  lemma CloseItemsAreWellFormed(items: Items)
    requires PrintableItems(items)
    ensures WellFormedItems(CloseItems(items))
    ensures WellFormedItems(items) ==> CloseItems(items) == items
  {
    if items.Item? {
      CloseIsWellFormed(items.head);
      CloseItemsAreWellFormed(items.tail);
    }
  }

  lemma CloseMembersAreWellFormed(members: Members)
    requires PrintableMembers(members)
    ensures WellFormedMembers(CloseMembers(members))
    ensures WellFormedMembers(members) ==> CloseMembers(members) == members
  {
    if members.Member? {
      CloseIsWellFormed(members.value);
      CloseMembersAreWellFormed(members.tail);
    } else if members.Gap? {
      CloseMembersAreWellFormed(members.tail);
    }
  }

  lemma CloseIsStrippable(v: Json)
    ensures NoObject(Close(v)) <==> NoObject(v)
    ensures Strippable(Close(v)) <==> Strippable(v)
  {
    match v
    case Scalar(_) =>
    case Text(_) =>
    case Arr(items) => CloseItemsNoObject(items);
    case Obj(members) => CloseMembersFlat(members);
  }

  lemma CloseItemsNoObject(items: Items)
    ensures NoObjectItems(CloseItems(items)) <==> NoObjectItems(items)
  {
    if items.Item? {
      CloseIsStrippable(items.head);
      CloseItemsNoObject(items.tail);
    }
  }

  lemma CloseMembersFlat(members: Members)
    ensures FlatMembers(CloseMembers(members)) <==> FlatMembers(members)
  {
    if members.Member? {
      CloseIsStrippable(members.value);
      CloseMembersFlat(members.tail);
    } else if members.Gap? {
      CloseMembersFlat(members.tail);
    }
  }

  lemma CloseKeepsKeys(f: string, v: Json)
    ensures HasKey(f, Close(v)) <==> HasKey(f, v)
    ensures Settled(f, Close(v)) <==> Settled(f, v)
  {
    match v
    case Scalar(_) =>
    case Text(_) =>
    case Arr(items) => CloseItemsKeepKeys(f, items);
    case Obj(members) => CloseMembersKeepKeys(f, members);
  }

  lemma CloseItemsKeepKeys(f: string, items: Items)
    ensures ItemsHaveKey(f, CloseItems(items)) <==> ItemsHaveKey(f, items)
    ensures SettledItems(f, CloseItems(items)) <==> SettledItems(f, items)
  {
    if items.Item? {
      CloseKeepsKeys(f, items.head);
      CloseItemsKeepKeys(f, items.tail);
    }
  }

  lemma CloseMembersKeepKeys(f: string, members: Members)
    ensures MembersHaveKey(f, CloseMembers(members)) <==> MembersHaveKey(f, members)
    ensures SettledMembers(f, CloseMembers(members)) <==> SettledMembers(f, members)
  {
    if members.Member? {
      CloseKeepsKeys(f, members.value);
      CloseIsStrippable(members.value);
      CloseMembersKeepKeys(f, members.tail);
    } else if members.Gap? {
      CloseMembersKeepKeys(f, members.tail);
    }
  }

  // Remove the strippable members of one field, at every depth.
  function Drop(f: string, v: Json): Json { Close(Apply(Bare(f), v)) }

  lemma DropKeeps(f: string, g: string, v: Json)
    requires WellFormed(v)
    ensures WellFormed(Drop(f, v))
    ensures !HasKey(f, v) ==> Drop(f, v) == v
    ensures Settled(g, v) ==> Settled(g, Drop(f, v))
  {
    WellFormedPrints(v);
    PrintableStays(Bare(f), v);
    CloseIsWellFormed(Apply(Bare(f), v));
    CloseIsWellFormed(v);
    if !HasKey(f, v) { NoKeyUntouched(Bare(f), v); }
    if Settled(g, v) { SettledStays(Bare(f), g, v); }
    CloseKeepsKeys(g, Apply(Bare(f), v));
  }

  // ---- Properties of members, at every depth ----

  predicate HasKey(f: string, v: Json) {
    match v
    case Scalar(_) => false
    case Text(_) => false
    case Arr(items) => ItemsHaveKey(f, items)
    case Obj(members) => MembersHaveKey(f, members)
  }

  predicate ItemsHaveKey(f: string, items: Items) {
    items.Item? && (HasKey(f, items.head) || ItemsHaveKey(f, items.tail))
  }

  predicate MembersHaveKey(f: string, members: Members) {
    match members
    case NoMembers => false
    case Member(key, value, tail) => key == f || HasKey(f, value) || MembersHaveKey(f, tail)
    case Gap(tail) => MembersHaveKey(f, tail)
  }

  // A member of the field is strippable, or has no member of the same field inside it.
  predicate Settled(f: string, v: Json) {
    match v
    case Scalar(_) => true
    case Text(_) => true
    case Arr(items) => SettledItems(f, items)
    case Obj(members) => SettledMembers(f, members)
  }

  predicate SettledItems(f: string, items: Items) {
    items.Item? ==> Settled(f, items.head) && SettledItems(f, items.tail)
  }

  predicate SettledMembers(f: string, members: Members) {
    match members
    case NoMembers => true
    case Member(key, value, tail) =>
      (key == f ==> Strippable(value) || !HasKey(f, value)) && Settled(f, value) && SettledMembers(f, tail)
    case Gap(tail) => SettledMembers(f, tail)
  }

  // All members of the field are scalars, strings or flat objects.
  predicate AllStrippable(f: string, v: Json) {
    match v
    case Scalar(_) => true
    case Text(_) => true
    case Arr(items) => AllStrippableItems(f, items)
    case Obj(members) => AllStrippableMembers(f, members)
  }

  predicate AllStrippableItems(f: string, items: Items) {
    items.Item? ==> AllStrippable(f, items.head) && AllStrippableItems(f, items.tail)
  }

  predicate AllStrippableMembers(f: string, members: Members) {
    match members
    case NoMembers => true
    case Member(key, value, tail) =>
      (key == f ==> Strippable(value)) && AllStrippable(f, value) && AllStrippableMembers(f, tail)
    case Gap(tail) => AllStrippableMembers(f, tail)
  }

  // Every strippable member of the field comes first in its object.
  predicate FirstOnly(f: string, v: Json) {
    match v
    case Scalar(_) => true
    case Text(_) => true
    case Arr(items) => FirstOnlyItems(f, items)
    case Obj(members) => FirstOnlyMembers(f, members, true)
  }

  predicate FirstOnlyItems(f: string, items: Items) {
    items.Item? ==> FirstOnly(f, items.head) && FirstOnlyItems(f, items.tail)
  }

  predicate FirstOnlyMembers(f: string, members: Members, first: bool) {
    match members
    case NoMembers => true
    case Member(key, value, tail) =>
      (key == f && Strippable(value) ==> first) && FirstOnly(f, value) && FirstOnlyMembers(f, tail, false)
    case Gap(tail) => FirstOnlyMembers(f, tail, false)
  }

  // ---- What every pass keeps ----

  lemma NoObjectUntouched(p: Pattern, v: Json)
    requires NoObject(v)
    ensures Apply(p, v) == v
  {
    if v.Arr? { NoObjectItemsUntouched(p, v.items); }
  }

  lemma NoObjectItemsUntouched(p: Pattern, items: Items)
    requires NoObjectItems(items)
    ensures ApplyItems(p, items) == items
  {
    if items.Item? {
      NoObjectUntouched(p, items.head);
      NoObjectItemsUntouched(p, items.tail);
    }
  }

  lemma {:induction false} FlatStays(p: Pattern, members: Members, first: bool)
    requires FlatMembers(members)
    ensures FlatMembers(ApplyMembers(p, members, first))
  {
    if members.Member? {
      NoObjectUntouched(p, members.value);
      FlatStays(p, members.tail, false);
    } else if members.Gap? {
      FlatStays(p, members.tail, false);
    }
  }

  lemma StrippableStays(p: Pattern, v: Json)
    requires Strippable(v)
    ensures Strippable(Apply(p, v))
  {
    if v.Obj? { FlatStays(p, v.members, true); }
  }

  lemma PrintableStays(p: Pattern, v: Json)
    requires (p.Model? ==> Plain(p.id)) && Printable(v)
    ensures Printable(Apply(p, v))
    ensures !p.Bare? && WellFormed(v) ==> WellFormed(Apply(p, v))
  {
    match v
    case Scalar(_) =>
    case Text(_) =>
    case Arr(items) => PrintableItemsStay(p, items);
    case Obj(members) => PrintableMembersStay(p, members, true);
  }

  lemma PrintableItemsStay(p: Pattern, items: Items)
    requires (p.Model? ==> Plain(p.id)) && PrintableItems(items)
    ensures PrintableItems(ApplyItems(p, items))
    ensures !p.Bare? && WellFormedItems(items) ==> WellFormedItems(ApplyItems(p, items))
  {
    if items.Item? {
      PrintableStays(p, items.head);
      PrintableItemsStay(p, items.tail);
    }
  }

  lemma PrintableMembersStay(p: Pattern, members: Members, first: bool)
    requires (p.Model? ==> Plain(p.id)) && PrintableMembers(members)
    ensures PrintableMembers(ApplyMembers(p, members, first))
    ensures !p.Bare? && WellFormedMembers(members) ==> WellFormedMembers(ApplyMembers(p, members, first))
  {
    if members.Member? {
      PrintableStays(p, members.value);
      PrintableMembersStay(p, members.tail, false);
    } else if members.Gap? {
      PrintableMembersStay(p, members.tail, false);
    }
  }

  // A stripping pass leaves a tree without its field alone.
  lemma NoKeyUntouched(p: Pattern, v: Json)
    requires !p.Model? && !HasKey(p.field, v)
    ensures Apply(p, v) == v
  {
    match v
    case Scalar(_) =>
    case Text(_) =>
    case Arr(items) => NoKeyItemsUntouched(p, items);
    case Obj(members) => NoKeyMembersUntouched(p, members, true);
  }

  lemma NoKeyItemsUntouched(p: Pattern, items: Items)
    requires !p.Model? && !ItemsHaveKey(p.field, items)
    ensures ApplyItems(p, items) == items
  {
    if items.Item? {
      NoKeyUntouched(p, items.head);
      NoKeyItemsUntouched(p, items.tail);
    }
  }

  lemma NoKeyMembersUntouched(p: Pattern, members: Members, first: bool)
    requires !p.Model? && !MembersHaveKey(p.field, members)
    ensures ApplyMembers(p, members, first) == members
  {
    if members.Member? {
      NoKeyUntouched(p, members.value);
      NoKeyMembersUntouched(p, members.tail, false);
    } else if members.Gap? {
      NoKeyMembersUntouched(p, members.tail, false);
    }
  }

  // No pass adds a key.
  lemma NoKeyAdded(p: Pattern, f: string, v: Json)
    requires !HasKey(f, v)
    ensures !HasKey(f, Apply(p, v))
  {
    match v
    case Scalar(_) =>
    case Text(_) =>
    case Arr(items) => NoKeyAddedItems(p, f, items);
    case Obj(members) => NoKeyAddedMembers(p, f, members, true);
  }

  lemma NoKeyAddedItems(p: Pattern, f: string, items: Items)
    requires !ItemsHaveKey(f, items)
    ensures !ItemsHaveKey(f, ApplyItems(p, items))
  {
    if items.Item? {
      NoKeyAdded(p, f, items.head);
      NoKeyAddedItems(p, f, items.tail);
    }
  }

  lemma NoKeyAddedMembers(p: Pattern, f: string, members: Members, first: bool)
    requires !MembersHaveKey(f, members)
    ensures !MembersHaveKey(f, ApplyMembers(p, members, first))
  {
    if members.Member? {
      NoKeyAdded(p, f, members.value);
      NoKeyAddedMembers(p, f, members.tail, false);
    } else if members.Gap? {
      NoKeyAddedMembers(p, f, members.tail, false);
    }
  }

  lemma SettledStays(p: Pattern, f: string, v: Json)
    requires Settled(f, v)
    ensures Settled(f, Apply(p, v))
  {
    match v
    case Scalar(_) =>
    case Text(_) =>
    case Arr(items) => SettledItemsStay(p, f, items);
    case Obj(members) => SettledMembersStay(p, f, members, true);
  }

  lemma SettledItemsStay(p: Pattern, f: string, items: Items)
    requires SettledItems(f, items)
    ensures SettledItems(f, ApplyItems(p, items))
  {
    if items.Item? {
      SettledStays(p, f, items.head);
      SettledItemsStay(p, f, items.tail);
    }
  }

  lemma SettledMembersStay(p: Pattern, f: string, members: Members, first: bool)
    requires SettledMembers(f, members)
    ensures SettledMembers(f, ApplyMembers(p, members, first))
  {
    if members.Member? {
      SettledStays(p, f, members.value);
      SettledMembersStay(p, f, members.tail, false);
      if Strippable(members.value) {
        StrippableStays(p, members.value);
      } else if !HasKey(f, members.value) {
        NoKeyAdded(p, f, members.value);
      }
    } else if members.Gap? {
      SettledMembersStay(p, f, members.tail, false);
    }
  }

  // ---- The three passes of stripField ----

  lemma AfterLead(f: string, v: Json)
    requires Settled(f, v)
    ensures FirstOnly(f, Apply(Lead(f), v))
  {
    match v
    case Scalar(_) =>
    case Text(_) =>
    case Arr(items) => AfterLeadItems(f, items);
    case Obj(members) => AfterLeadMembers(f, members, true);
  }

  lemma AfterLeadItems(f: string, items: Items)
    requires SettledItems(f, items)
    ensures FirstOnlyItems(f, ApplyItems(Lead(f), items))
  {
    if items.Item? {
      AfterLead(f, items.head);
      AfterLeadItems(f, items.tail);
    }
  }

  lemma AfterLeadMembers(f: string, members: Members, first: bool)
    requires SettledMembers(f, members)
    ensures FirstOnlyMembers(f, ApplyMembers(Lead(f), members, first), first)
    ensures !first ==> FirstOnlyMembers(f, ApplyMembers(Lead(f), members, first), true)
  {
    if members.Member? {
      AfterLead(f, members.value);
      AfterLeadMembers(f, members.tail, false);
      if members.key == f && !Strippable(members.value) {
        NoKeyUntouched(Lead(f), members.value);
      }
    } else if members.Gap? {
      AfterLeadMembers(f, members.tail, false);
    }
  }

  lemma AfterTrail(f: string, v: Json)
    requires WellFormed(v) && Settled(f, v) && FirstOnly(f, v)
    ensures Lone(Apply(Bare(f), Apply(Trail(f), v)))
  {
    match v
    case Scalar(_) =>
    case Text(_) =>
    case Arr(items) => AfterTrailItems(f, items);
    case Obj(members) => AfterTrailMembers(f, members, true);
  }

  lemma AfterTrailItems(f: string, items: Items)
    requires WellFormedItems(items) && SettledItems(f, items) && FirstOnlyItems(f, items)
    ensures LoneItems(ApplyItems(Bare(f), ApplyItems(Trail(f), items)))
  {
    if items.Item? {
      AfterTrail(f, items.head);
      AfterTrailItems(f, items.tail);
    }
  }

  lemma AfterTrailMembers(f: string, members: Members, first: bool)
    requires WellFormedMembers(members) && SettledMembers(f, members) && FirstOnlyMembers(f, members, first)
    ensures
      var trail := ApplyMembers(Trail(f), members, first);
      LoneMembers(ApplyMembers(Bare(f), trail, first), first) && LoneMembers(ApplyMembers(Bare(f), trail, true), first)
  {
    if members.Member? {
      AfterTrail(f, members.value);
      AfterTrailMembers(f, members.tail, false);
      if members.key == f && !Strippable(members.value) {
        NoKeyUntouched(Trail(f), members.value);
      }
    }
  }

  // The last pass makes up for where the earlier ones have been.
  lemma DropAbsorbs(p: Pattern, v: Json)
    requires (p.Lead? || p.Trail?) && Settled(p.field, v)
    ensures Drop(p.field, Apply(p, v)) == Drop(p.field, v)
  {
    match v
    case Scalar(_) =>
    case Text(_) =>
    case Arr(items) => DropAbsorbsItems(p, items);
    case Obj(members) => DropAbsorbsMembers(p, members, true);
  }

  lemma DropAbsorbsItems(p: Pattern, items: Items)
    requires (p.Lead? || p.Trail?) && SettledItems(p.field, items)
    ensures CloseItems(ApplyItems(Bare(p.field), ApplyItems(p, items)))
            == CloseItems(ApplyItems(Bare(p.field), items))
  {
    if items.Item? {
      DropAbsorbs(p, items.head);
      DropAbsorbsItems(p, items.tail);
    }
  }

  lemma DropAbsorbsMembers(p: Pattern, members: Members, first: bool)
    requires (p.Lead? || p.Trail?) && SettledMembers(p.field, members)
    ensures
      var passed := ApplyMembers(p, members, first);
      && CloseMembers(ApplyMembers(Bare(p.field), passed, true))
         == CloseMembers(ApplyMembers(Bare(p.field), members, true))
      && CloseMembers(ApplyMembers(Bare(p.field), passed, false))
         == CloseMembers(ApplyMembers(Bare(p.field), members, false))
  {
    if members.Member? {
      DropAbsorbs(p, members.value);
      DropAbsorbsMembers(p, members.tail, false);
      if members.key == p.field {
        if Strippable(members.value) {
          StrippableStays(p, members.value);
        } else {
          NoKeyUntouched(p, members.value);
        }
      }
    } else if members.Gap? {
      DropAbsorbsMembers(p, members.tail, false);
    }
  }

  // What all three passes leave.
  function Strip(f: string, v: Json): Json { Apply(Bare(f), Apply(Trail(f), Apply(Lead(f), v))) }

  /** stripField on the text of any tree is its three passes on the tree. */
  lemma StripFieldIsStrip(f: string, v: Json)
    requires IsName(f) && Printable(v)
    ensures StripField(Print(v), f) == Print(Strip(f, v)) && Printable(Strip(f, v))
  {
    var lead := Apply(Lead(f), v);
    var trail := Apply(Trail(f), lead);
    PassIsApply(Lead(f), v);
    PrintableStays(Lead(f), v);
    PassIsApply(Trail(f), lead);
    PrintableStays(Trail(f), lead);
    PassIsApply(Bare(f), trail);
    PrintableStays(Bare(f), trail);
  }

  lemma StripIsDrop(f: string, v: Json)
    requires WellFormed(v) && Settled(f, v)
    ensures Lone(Strip(f, v)) && Close(Strip(f, v)) == Drop(f, v)
  {
    var lead := Apply(Lead(f), v);
    WellFormedPrints(v);
    PrintableStays(Lead(f), v);
    SettledStays(Lead(f), f, v);
    AfterLead(f, v);
    AfterTrail(f, lead);
    DropAbsorbs(Lead(f), v);
    DropAbsorbs(Trail(f), lead);
  }

  /** stripField on text is Drop on the tree: the three passes together remove exactly the strippable members
      of the field, wherever they stand, with their commas, and the result is the compact print of a tree. */
  lemma StripFieldIsDrop(f: string, v: Json)
    requires IsName(f) && WellFormed(v) && Settled(f, v)
    ensures StripField(Print(v), f) == Print(Drop(f, v))
    ensures WellFormed(Drop(f, v))
  {
    WellFormedPrints(v);
    StripFieldIsStrip(f, v);
    StripIsDrop(f, v);
    ClosePrints(Strip(f, v));
    DropKeeps(f, f, v);
  }

  // ---- What gets through ----

  // A member of the field that no pass can remove: its value is an array or a nested object, and it does
  // not sit inside a member that is removed.
  predicate Leaks(f: string, v: Json) {
    match v
    case Scalar(_) => false
    case Text(_) => false
    case Arr(items) => LeaksItems(f, items)
    case Obj(members) => LeaksMembers(f, members)
  }

  predicate LeaksItems(f: string, items: Items) {
    items.Item? && (Leaks(f, items.head) || LeaksItems(f, items.tail))
  }

  predicate LeaksMembers(f: string, members: Members) {
    match members
    case NoMembers => false
    case Member(key, value, tail) =>
      (if key == f then !Strippable(value) else Leaks(f, value)) || LeaksMembers(f, tail)
    case Gap(tail) => LeaksMembers(f, tail)
  }

  /** The field is gone from the filtered tree exactly when no member of it has an array or a nested object
      for a value, outside members that are removed anyway. */
  lemma FieldGoneIff(f: string, v: Json)
    ensures HasKey(f, Drop(f, v)) <==> Leaks(f, v)
  {
    FieldGapped(f, v);
    CloseKeepsKeys(f, Apply(Bare(f), v));
  }

  lemma FieldGapped(f: string, v: Json)
    ensures HasKey(f, Apply(Bare(f), v)) <==> Leaks(f, v)
  {
    match v
    case Scalar(_) =>
    case Text(_) =>
    case Arr(items) => FieldGappedItems(f, items);
    case Obj(members) => FieldGappedMembers(f, members, true);
  }

  lemma FieldGappedItems(f: string, items: Items)
    ensures ItemsHaveKey(f, ApplyItems(Bare(f), items)) <==> LeaksItems(f, items)
  {
    if items.Item? {
      FieldGapped(f, items.head);
      FieldGappedItems(f, items.tail);
    }
  }

  lemma FieldGappedMembers(f: string, members: Members, first: bool)
    ensures MembersHaveKey(f, ApplyMembers(Bare(f), members, first)) <==> LeaksMembers(f, members)
  {
    if members.Member? {
      FieldGapped(f, members.value);
      FieldGappedMembers(f, members.tail, false);
    } else if members.Gap? {
      FieldGappedMembers(f, members.tail, false);
    }
  }
}

/** The whole sanitizer as one structural filter of the response tree. */
module MaskFilter {
  import opened Sums
  import opened Regex
  import opened Json
  import opened Scan
  import opened Masking
  import opened MaskTree
  import opened MaskEdges

  // Remove every member whose key is in `keys`, at every depth, and give string-valued model members the id.
  function Mask(keys: set<string>, id: string, v: Json): Json
    decreases v, 0
  {
    match v
    case Scalar(_) => v
    case Text(_) => v
    case Arr(items) => Arr(MaskItems(keys, id, items))
    case Obj(members) => Obj(MaskMembers(keys, id, members))
  }

  function MaskItems(keys: set<string>, id: string, items: Items): Items
    decreases items, 0
  {
    match items
    case NoItems => NoItems
    case Item(head, tail) => Item(Mask(keys, id, head), MaskItems(keys, id, tail))
  }

  function MaskMembers(keys: set<string>, id: string, members: Members): Members
    decreases members, 0
  {
    match members
    case NoMembers => NoMembers
    case Member(key, value, tail) =>
      if key in keys then MaskMembers(keys, id, tail)
      else Member(key, MaskValue(keys, id, key, value), MaskMembers(keys, id, tail))
    case Gap(tail) => Gap(MaskMembers(keys, id, tail))
  }

  function MaskValue(keys: set<string>, id: string, key: string, value: Json): Json
    decreases value, 1
  {
    if key == "model" && value.Text? then Text(id) else Mask(keys, id, value)
  }

  // All internal members are scalars, strings or flat objects.
  predicate Internal(v: Json) { forall f :: f in INTERNAL ==> AllStrippable(f, v) }

  // ---- The model pass and the four strips add up to Mask ----

  lemma ModelPassIsMask(id: string, v: Json)
    ensures Apply(Model(id), v) == Mask({}, id, v)
  {
    match v
    case Scalar(_) =>
    case Text(_) =>
    case Arr(items) => ModelPassItems(id, items);
    case Obj(members) => ModelPassMembers(id, members, true);
  }

  lemma ModelPassItems(id: string, items: Items)
    ensures ApplyItems(Model(id), items) == MaskItems({}, id, items)
  {
    if items.Item? {
      ModelPassIsMask(id, items.head);
      ModelPassItems(id, items.tail);
    }
  }

  lemma ModelPassMembers(id: string, members: Members, first: bool)
    ensures ApplyMembers(Model(id), members, first) == MaskMembers({}, id, members)
  {
    if members.Member? {
      ModelPassIsMask(id, members.value);
      ModelPassMembers(id, members.tail, false);
    } else if members.Gap? {
      ModelPassMembers(id, members.tail, false);
    }
  }

  lemma NoObjectMask(keys: set<string>, id: string, v: Json)
    requires NoObject(v)
    ensures Mask(keys, id, v) == v
  {
    if v.Arr? { NoObjectItemsMask(keys, id, v.items); }
  }

  lemma NoObjectItemsMask(keys: set<string>, id: string, items: Items)
    requires NoObjectItems(items)
    ensures MaskItems(keys, id, items) == items
  {
    if items.Item? {
      NoObjectMask(keys, id, items.head);
      NoObjectItemsMask(keys, id, items.tail);
    }
  }

  lemma {:induction false} FlatMask(keys: set<string>, id: string, members: Members)
    requires FlatMembers(members)
    ensures FlatMembers(MaskMembers(keys, id, members))
  {
    if members.Member? {
      NoObjectMask(keys, id, members.value);
      FlatMask(keys, id, members.tail);
    } else if members.Gap? {
      FlatMask(keys, id, members.tail);
    }
  }

  lemma StrippableMask(keys: set<string>, id: string, v: Json)
    requires Strippable(v)
    ensures Strippable(Mask(keys, id, v))
  {
    if v.Obj? { FlatMask(keys, id, v.members); }
  }

  lemma DropAfterMask(f: string, keys: set<string>, id: string, v: Json)
    requires WellFormed(v) && AllStrippable(f, v)
    ensures Drop(f, Mask(keys, id, v)) == Mask(keys + {f}, id, v)
  {
    match v
    case Scalar(_) =>
    case Text(_) =>
    case Arr(items) => DropAfterMaskItems(f, keys, id, items);
    case Obj(members) => DropAfterMaskMembers(f, keys, id, members, true);
  }

  lemma DropAfterMaskItems(f: string, keys: set<string>, id: string, items: Items)
    requires WellFormedItems(items) && AllStrippableItems(f, items)
    ensures CloseItems(ApplyItems(Bare(f), MaskItems(keys, id, items))) == MaskItems(keys + {f}, id, items)
  {
    if items.Item? {
      DropAfterMask(f, keys, id, items.head);
      DropAfterMaskItems(f, keys, id, items.tail);
    }
  }

  lemma DropAfterMaskMembers(f: string, keys: set<string>, id: string, members: Members, first: bool)
    requires WellFormedMembers(members) && AllStrippableMembers(f, members)
    ensures CloseMembers(ApplyMembers(Bare(f), MaskMembers(keys, id, members), first))
            == MaskMembers(keys + {f}, id, members)
  {
    if members.Member? {
      var Member(key, value, tail) := members;
      DropAfterMask(f, keys, id, value);
      DropAfterMaskMembers(f, keys, id, tail, first);
      DropAfterMaskMembers(f, keys, id, tail, false);
      if key == f { StrippableMask(keys, id, value); }
    }
  }

  lemma AllStrippableMask(f: string, keys: set<string>, id: string, v: Json)
    requires AllStrippable(f, v)
    ensures AllStrippable(f, Mask(keys, id, v))
  {
    match v
    case Scalar(_) =>
    case Text(_) =>
    case Arr(items) => AllStrippableMaskItems(f, keys, id, items);
    case Obj(members) => AllStrippableMaskMembers(f, keys, id, members);
  }

  lemma AllStrippableMaskItems(f: string, keys: set<string>, id: string, items: Items)
    requires AllStrippableItems(f, items)
    ensures AllStrippableItems(f, MaskItems(keys, id, items))
  {
    if items.Item? {
      AllStrippableMask(f, keys, id, items.head);
      AllStrippableMaskItems(f, keys, id, items.tail);
    }
  }

  lemma AllStrippableMaskMembers(f: string, keys: set<string>, id: string, members: Members)
    requires AllStrippableMembers(f, members)
    ensures AllStrippableMembers(f, MaskMembers(keys, id, members))
  {
    if members.Member? {
      AllStrippableMask(f, keys, id, members.value);
      AllStrippableMaskMembers(f, keys, id, members.tail);
      if members.key == f { StrippableMask(keys, id, members.value); }
    } else if members.Gap? {
      AllStrippableMaskMembers(f, keys, id, members.tail);
    }
  }

  lemma WellFormedMask(keys: set<string>, id: string, v: Json)
    requires WellFormed(v) && Plain(id)
    ensures WellFormed(Mask(keys, id, v))
  {
    match v
    case Scalar(_) =>
    case Text(_) =>
    case Arr(items) => WellFormedMaskItems(keys, id, items);
    case Obj(members) => WellFormedMaskMembers(keys, id, members);
  }

  lemma WellFormedMaskItems(keys: set<string>, id: string, items: Items)
    requires WellFormedItems(items) && Plain(id)
    ensures WellFormedItems(MaskItems(keys, id, items))
  {
    if items.Item? {
      WellFormedMask(keys, id, items.head);
      WellFormedMaskItems(keys, id, items.tail);
    }
  }

  lemma WellFormedMaskMembers(keys: set<string>, id: string, members: Members)
    requires WellFormedMembers(members) && Plain(id)
    ensures WellFormedMembers(MaskMembers(keys, id, members))
  {
    if members.Member? {
      WellFormedMask(keys, id, members.value);
      WellFormedMaskMembers(keys, id, members.tail);
    }
  }

  lemma StrippableSettles(f: string, v: Json)
    requires AllStrippable(f, v)
    ensures Settled(f, v)
  {
    match v
    case Scalar(_) =>
    case Text(_) =>
    case Arr(items) => StrippableSettlesItems(f, items);
    case Obj(members) => StrippableSettlesMembers(f, members);
  }

  lemma StrippableSettlesItems(f: string, items: Items)
    requires AllStrippableItems(f, items)
    ensures SettledItems(f, items)
  {
    if items.Item? {
      StrippableSettles(f, items.head);
      StrippableSettlesItems(f, items.tail);
    }
  }

  lemma StrippableSettlesMembers(f: string, members: Members)
    requires AllStrippableMembers(f, members)
    ensures SettledMembers(f, members)
  {
    if members.Member? {
      StrippableSettles(f, members.value);
      StrippableSettlesMembers(f, members.tail);
    } else if members.Gap? {
      StrippableSettlesMembers(f, members.tail);
    }
  }

  lemma InternalNames(f: string)
    requires f in INTERNAL
    ensures IsName(f)
  {
  }

  // One more field stripped from the text is one more key in the filter.
  lemma StripOne(f: string, keys: set<string>, more: set<string>, id: string, v: Json)
    requires f in INTERNAL && WellFormed(v) && Plain(id) && Internal(v) && more == keys + {f}
    ensures StripField(Print(Mask(keys, id, v)), f) == Print(Mask(more, id, v))
  {
    var w := Mask(keys, id, v);
    InternalNames(f);
    WellFormedMask(keys, id, v);
    AllStrippableMask(f, keys, id, v);
    StrippableSettles(f, w);
    StripFieldIsDrop(f, w);
    DropAfterMask(f, keys, id, v);
  }

  lemma SanitizeInSteps(s: string, id: string, d0: string, d1: string, d2: string, d3: string)
    requires ReplaceAll(Model(id), s) == d0
    requires StripField(d0, "provider") == d1
    requires StripField(d1, "cost") == d2
    requires StripField(d2, "cost_details") == d3
    ensures Sanitize(s, id) == StripField(d3, "is_byok")
  {
  }

  /** Thirteen regular-expression passes over the text of a response are one structural filter of its tree:
      when the internal members are scalars, strings or flat objects, what comes out is the compact print of
      the tree without them, at every depth, and with the requested model id. In particular it is valid JSON. */
  lemma SanitizeIsMask(v: Json, id: string)
    requires WellFormed(v) && Plain(id) && Internal(v)
    ensures Sanitize(Print(v), id) == Print(Mask(INTERNAL, id, v))
    ensures WellFormed(Mask(INTERNAL, id, v))
  {
    var k1, k2, k3 := {"provider"}, {"provider", "cost"}, {"provider", "cost", "cost_details"};
    WellFormedPrints(v);
    PassIsApply(Model(id), v);
    ModelPassIsMask(id, v);
    StripOne("provider", {}, k1, id, v);
    StripOne("cost", k1, k2, id, v);
    StripOne("cost_details", k2, k3, id, v);
    StripOne("is_byok", k3, INTERNAL, id, v);
    SanitizeInSteps(Print(v), id, Print(Mask({}, id, v)), Print(Mask(k1, id, v)), Print(Mask(k2, id, v)),
                    Print(Mask(k3, id, v)));
    WellFormedMask(INTERNAL, id, v);
  }

  // A member that is not strippable holds no member of its own field.
  predicate AllSettled(v: Json) { forall f :: f in INTERNAL ==> Settled(f, v) }

  /** Without the restriction on values, but with this one: the model pass and four drops, field by field. */
  lemma SanitizeIsFourDrops(v: Json, id: string)
    requires WellFormed(v) && Plain(id) && AllSettled(v)
    ensures Sanitize(Print(v), id)
            == Print(Drop("is_byok", Drop("cost_details", Drop("cost", Drop("provider", Apply(Model(id), v))))))
    ensures WellFormed(Drop("is_byok", Drop("cost_details", Drop("cost", Drop("provider", Apply(Model(id), v))))))
  {
    hide *;
    var v0 := Apply(Model(id), v);
    ModelKeepsSettled(v, id);
    AllInternal();
    StripKeepsSettled("provider", v0);
    var v1 := Drop("provider", v0);
    StripKeepsSettled("cost", v1);
    var v2 := Drop("cost", v1);
    StripKeepsSettled("cost_details", v2);
    var v3 := Drop("cost_details", v2);
    StripKeepsSettled("is_byok", v3);
    SanitizeInSteps(Print(v), id, Print(v0), Print(v1), Print(v2), Print(v3));
  }

  lemma AllInternal()
    ensures "provider" in INTERNAL && "cost" in INTERNAL && "cost_details" in INTERNAL && "is_byok" in INTERNAL
  {
  }

  lemma ModelKeepsSettled(v: Json, id: string)
    requires WellFormed(v) && Plain(id) && AllSettled(v)
    ensures
      var w := Apply(Model(id), v);
      ReplaceAll(Model(id), Print(v)) == Print(w) && WellFormed(w) && AllSettled(w)
  {
    WellFormedPrints(v);
    PassIsApply(Model(id), v);
    PrintableStays(Model(id), v);
    forall f | f in INTERNAL ensures Settled(f, Apply(Model(id), v)) { SettledStays(Model(id), f, v); }
  }

  // What all thirteen passes leave of a tree.
  function Sanitized(id: string, v: Json): Json {
    Strip("is_byok", Strip("cost_details", Strip("cost", Strip("provider", Apply(Model(id), v)))))
  }

  /** Without any restriction: the thirteen passes over the text of a tree print a tree, which may have gaps. */
  lemma SanitizeIsSanitized(v: Json, id: string)
    requires Printable(v) && Plain(id)
    ensures Sanitize(Print(v), id) == Print(Sanitized(id, v)) && Printable(Sanitized(id, v))
  {
    var v0 := Apply(Model(id), v);
    PassIsApply(Model(id), v);
    PrintableStays(Model(id), v);
    hide Strip, Apply, Printable, StripField, ReplaceAll;
    InternalNames("provider");
    StripFieldIsStrip("provider", v0);
    var v1 := Strip("provider", v0);
    InternalNames("cost");
    StripFieldIsStrip("cost", v1);
    var v2 := Strip("cost", v1);
    InternalNames("cost_details");
    StripFieldIsStrip("cost_details", v2);
    var v3 := Strip("cost_details", v2);
    InternalNames("is_byok");
    StripFieldIsStrip("is_byok", v3);
    SanitizeInSteps(Print(v), id, Print(v0), Print(v1), Print(v2), Print(v3));
  }

  /** For every tree, the sanitized text is valid JSON exactly when, after all passes, every gap is alone in its
      object; and then it is the print of the tree without the gaps. */
  lemma SanitizeIsValidIff(v: Json, id: string)
    requires Printable(v) && Plain(id)
    ensures ValidJson(Sanitize(Print(v), id)) <==> Lone(Sanitized(id, v))
    ensures Lone(Sanitized(id, v)) ==> Sanitize(Print(v), id) == Print(Close(Sanitized(id, v)))
    ensures WellFormed(v) && AllSettled(v) ==> Lone(Sanitized(id, v))
  {
    hide Sanitize, Sanitized, AllSettled;
    SanitizeIsSanitized(v, id);
    PrintIsValidIff(Sanitized(id, v));
    if Lone(Sanitized(id, v)) { ClosePrints(Sanitized(id, v)); }
    if WellFormed(v) && AllSettled(v) { FourDropsAreValid(v, id); }
  }

  lemma FourDropsAreValid(v: Json, id: string)
    requires WellFormed(v) && Plain(id) && AllSettled(v)
    ensures ValidJson(Sanitize(Print(v), id))
  {
    SanitizeIsFourDrops(v, id);
  }

  lemma StripKeepsSettled(f: string, v: Json)
    requires WellFormed(v) && f in INTERNAL && AllSettled(v)
    ensures StripField(Print(v), f) == Print(Drop(f, v))
    ensures WellFormed(Drop(f, v)) && AllSettled(Drop(f, v))
  {
    InternalNames(f);
    StripFieldIsDrop(f, v);
    forall g | g in INTERNAL ensures Settled(g, Drop(f, v)) { DropKeeps(f, g, v); }
  }

  // ---- What the filter means ----

  datatype Step = Index(i: nat) | Field(key: string)

  // The value at the end of a path; of members with the same key, the first.
  function Get(v: Json, path: seq<Step>): Option<Json> {
    if path == [] then Some(v)
    else match path[0]
      case Index(i) => if v.Arr? then GetItem(v.items, i, path[1..]) else None
      case Field(key) => if v.Obj? then GetMember(v.members, key, path[1..]) else None
  }

  function GetItem(items: Items, i: nat, path: seq<Step>): Option<Json> {
    if items.NoItems? then None else if i == 0 then Get(items.head, path) else GetItem(items.tail, i - 1, path)
  }

  function GetMember(members: Members, key: string, path: seq<Step>): Option<Json> {
    match members
    case NoMembers => None
    case Member(k, value, tail) => if k == key then Get(value, path) else GetMember(tail, key, path)
    case Gap(tail) => GetMember(tail, key, path)
  }

  predicate Names(path: seq<Step>, keys: set<string>) {
    exists i :: 0 <= i < |path| && path[i].Field? && path[i].key in keys
  }

  // What a client finds at the end of a path that named no removed key.
  function Seen(keys: set<string>, id: string, path: seq<Step>, w: Option<Json>): Option<Json> {
    match w
    case None => None
    case Some(x) =>
      if path != [] && path[|path| - 1] == Field("model") && x.Text? then Some(Text(id))
      else Some(Mask(keys, id, x))
  }

  /** The filter, path by path: nothing is found under a removed key, and everything else is found where it
      was, with the model id in place of the upstream one. */
  lemma MaskByPath(keys: set<string>, id: string, v: Json, path: seq<Step>)
    ensures Get(Mask(keys, id, v), path) == if Names(path, keys) then None else Seen(keys, id, path, Get(v, path))
    decreases path, v
  {
    if path != [] {
      assert Names(path, keys) <==> (path[0].Field? && path[0].key in keys) || Names(path[1..], keys) by {
        NamesSplits(path, keys);
      }
      match path[0]
      case Index(i) => if v.Arr? { MaskItemsByPath(keys, id, v.items, i, path); }
      case Field(key) => if v.Obj? { MaskMembersByPath(keys, id, v.members, key, path); }
    }
  }

  lemma NamesSplits(path: seq<Step>, keys: set<string>)
    requires path != []
    ensures Names(path, keys) <==> (path[0].Field? && path[0].key in keys) || Names(path[1..], keys)
  {
    if Names(path, keys) {
      var i :| 0 <= i < |path| && path[i].Field? && path[i].key in keys;
      if i > 0 { assert path[1..][i - 1] == path[i]; }
    }
    if Names(path[1..], keys) {
      var i :| 0 <= i < |path| - 1 && path[1..][i].Field? && path[1..][i].key in keys;
      assert path[i + 1] == path[1..][i];
    }
  }

  lemma MaskItemsByPath(keys: set<string>, id: string, items: Items, i: nat, path: seq<Step>)
    requires path != [] && path[0].Index?
    ensures GetItem(MaskItems(keys, id, items), i, path[1..])
            == if Names(path[1..], keys) then None else Seen(keys, id, path, GetItem(items, i, path[1..]))
    decreases path, items
  {
    if items.Item? {
      if i == 0 {
        MaskByPath(keys, id, items.head, path[1..]);
        assert |path| > 1 ==> path[1..][|path| - 2] == path[|path| - 1];
      } else {
        MaskItemsByPath(keys, id, items.tail, i - 1, path);
      }
    }
  }

  lemma MaskMembersByPath(keys: set<string>, id: string, members: Members, key: string, path: seq<Step>)
    requires path != [] && path[0] == Field(key)
    ensures GetMember(MaskMembers(keys, id, members), key, path[1..])
            == if key in keys || Names(path[1..], keys) then None
               else Seen(keys, id, path, GetMember(members, key, path[1..]))
    decreases path, members
  {
    if members.Member? {
      if members.key != key || key in keys {
        MaskMembersByPath(keys, id, members.tail, key, path);
      } else {
        MaskByPath(keys, id, members.value, path[1..]);
        assert |path| > 1 ==> path[1..][|path| - 2] == path[|path| - 1];
      }
    } else if members.Gap? {
      MaskMembersByPath(keys, id, members.tail, key, path);
    }
  }

  // No member of the keys, and no model name but the id.
  predicate Clean(keys: set<string>, id: string, v: Json) {
    match v
    case Scalar(_) => true
    case Text(_) => true
    case Arr(items) => CleanItems(keys, id, items)
    case Obj(members) => CleanMembers(keys, id, members)
  }

  predicate CleanItems(keys: set<string>, id: string, items: Items) {
    items.Item? ==> Clean(keys, id, items.head) && CleanItems(keys, id, items.tail)
  }

  predicate CleanMembers(keys: set<string>, id: string, members: Members) {
    match members
    case NoMembers => true
    case Member(key, value, tail) =>
      && key !in keys && (key == "model" && value.Text? ==> value.s == id)
      && Clean(keys, id, value) && CleanMembers(keys, id, tail)
    case Gap(tail) => CleanMembers(keys, id, tail)
  }

  /** The filter leaves nothing internal, and touches nothing when there is nothing internal. */
  lemma MaskCleans(keys: set<string>, id: string, v: Json)
    ensures Clean(keys, id, Mask(keys, id, v))
    ensures Mask(keys, id, v) == v <==> Clean(keys, id, v)
  {
    match v
    case Scalar(_) =>
    case Text(_) =>
    case Arr(items) => MaskCleansItems(keys, id, items);
    case Obj(members) => MaskCleansMembers(keys, id, members);
  }

  lemma MaskCleansItems(keys: set<string>, id: string, items: Items)
    ensures CleanItems(keys, id, MaskItems(keys, id, items))
    ensures MaskItems(keys, id, items) == items <==> CleanItems(keys, id, items)
  {
    if items.Item? {
      MaskCleans(keys, id, items.head);
      MaskCleansItems(keys, id, items.tail);
    }
  }

  lemma MaskCleansMembers(keys: set<string>, id: string, members: Members)
    ensures CleanMembers(keys, id, MaskMembers(keys, id, members))
    ensures MaskMembers(keys, id, members) == members <==> CleanMembers(keys, id, members)
  {
    if members.Member? {
      MaskCleans(keys, id, members.value);
      MaskCleansMembers(keys, id, members.tail);
    } else if members.Gap? {
      MaskCleansMembers(keys, id, members.tail);
    }
  }

  /** Masking twice is masking once, whatever model id the first mask used. */
  lemma MaskIsIdempotent(keys: set<string>, id: string, other: string, v: Json)
    ensures Mask(keys, id, Mask(keys, other, v)) == Mask(keys, id, v)
  {
    match v
    case Scalar(_) =>
    case Text(_) =>
    case Arr(items) => MaskItemsIsIdempotent(keys, id, other, items);
    case Obj(members) => MaskMembersIsIdempotent(keys, id, other, members);
  }

  lemma MaskItemsIsIdempotent(keys: set<string>, id: string, other: string, items: Items)
    ensures MaskItems(keys, id, MaskItems(keys, other, items)) == MaskItems(keys, id, items)
  {
    if items.Item? {
      MaskIsIdempotent(keys, id, other, items.head);
      MaskItemsIsIdempotent(keys, id, other, items.tail);
    }
  }

  lemma MaskMembersIsIdempotent(keys: set<string>, id: string, other: string, members: Members)
    ensures MaskMembers(keys, id, MaskMembers(keys, other, members)) == MaskMembers(keys, id, members)
  {
    if members.Member? {
      MaskIsIdempotent(keys, id, other, members.value);
      MaskMembersIsIdempotent(keys, id, other, members.tail);
    } else if members.Gap? {
      MaskMembersIsIdempotent(keys, id, other, members.tail);
    }
  }

  /** On the text: a sanitized body is not changed by sanitizing it again, and a body is left alone exactly
      when its tree holds no internal member and no other model name. */
  lemma SanitizeTwice(v: Json, id: string)
    requires WellFormed(v) && Plain(id) && Internal(v)
    ensures Sanitize(Sanitize(Print(v), id), id) == Sanitize(Print(v), id)
    ensures Sanitize(Print(v), id) == Print(v) <==> Clean(INTERNAL, id, v)
    ensures Clean(INTERNAL, id, Mask(INTERNAL, id, v))
  {
    SanitizeIsMask(v, id);
    var w := Mask(INTERNAL, id, v);
    forall f | f in INTERNAL ensures AllStrippable(f, w) { AllStrippableMask(f, INTERNAL, id, v); }
    SanitizeIsMask(w, id);
    MaskIsIdempotent(INTERNAL, id, id, v);
    MaskCleans(INTERNAL, id, v);
    if Print(w) == Print(v) { PrintIsInjective(w, v); }
  }

  /** A data line of the stream is masked like a body. */
  lemma DataLineIsMasked(v: Json, id: string)
    requires WellFormed(v) && Plain(id) && Internal(v)
    ensures Sanitize("data: " + Print(v), id) == "data: " + Print(Mask(INTERNAL, id, v))
  {
    SanitizeInert("data: ", Print(v), id);
    SanitizeIsMask(v, id);
  }
}

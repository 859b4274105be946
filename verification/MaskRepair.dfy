/** A response on which one field of the masking leaves a stray comma and a later field removes it. */
module MaskRepair {
  import opened Regex
  import opened Json
  import opened Scan
  import opened Masking
  import opened MaskTree
  import opened MaskEdges
  import opened MaskFilter
  import opened MaskIntact
  import opened MaskTimes

  const ONE := Scalar("1")

  // {"cost_details":1,"cost":{"b":1,"cost":{}}}
  function Repaired(): Json { SelfNested("cost", "cost_details", ONE, "b", ONE, Obj(NoMembers)) }

  lemma RepairedIs(id: string)
    ensures WellFormed(Repaired()) && Apply(Model(id), Repaired()) == Repaired()
    ensures !HasKey("provider", Repaired())
  {
    var inner := Member("b", ONE, Member("cost", Obj(NoMembers), NoMembers));
    var outer := Member("cost", Obj(inner), NoMembers);
    SelfNestedWellFormed("cost", "cost_details", ONE, "b", ONE, Obj(NoMembers));
    assert ApplyMembers(Model(id), NoMembers, false) == NoMembers == ApplyMembers(Model(id), NoMembers, true);
    assert ApplyMembers(Model(id), inner.tail, false) == inner.tail;
    assert ApplyMembers(Model(id), inner, true) == inner;
    assert ApplyMembers(Model(id), outer, false) == outer;
    assert !MembersHaveKey("provider", NoMembers) && !MembersHaveKey("provider", inner.tail);
    assert !MembersHaveKey("provider", inner) && !MembersHaveKey("provider", outer);
  }

  lemma StripsNothing(f: string, v: Json)
    requires !HasKey(f, v)
    ensures Strip(f, v) == v
  {
    NoKeyUntouched(Lead(f), v);
    NoKeyUntouched(Trail(f), v);
    NoKeyUntouched(Bare(f), v);
  }

  // The second pass of cost_details takes the stray comma along.
  lemma TornIsRepaired(f: string)
    ensures Strip(f, Torn(f, ONE)) == Obj(Gap(NoMembers))
  {
    var gap := Gap(NoMembers);
    assert ApplyMembers(Lead(f), gap, false) == gap;
    assert ApplyMembers(Lead(f), Member(f, ONE, gap), true) == Member(f, ONE, gap);
    assert ApplyMembers(Trail(f), gap, false) == gap;
    assert ApplyMembers(Trail(f), Member(f, ONE, gap), true) == gap;
    assert ApplyMembers(Bare(f), gap, true) == gap;
  }

  /** Neither field by field nor in general is valid JSON lost for good: here the text after the cost passes is
      no JSON, and the sanitized text is. So the body is whole for all passes together, but not intact for the one
      field. */
  lemma LaterFieldRepairs(id: string)
    requires Plain(id)
    ensures !ValidJson(StripField(Print(Repaired()), "cost"))
    ensures Sanitize(Print(Repaired()), id) == "{}" && ValidJson("{}")
    ensures !Intact("cost", Repaired()) && Whole(Repaired())
  {
    hide Whole, Intact, Strip, Repaired, Sanitize, StripField, ReplaceAll;
    RepairedIs(id);
    WellFormedPrints(Repaired());
    StripsNothing("provider", Repaired());
    InternalNames("cost");
    InternalNames("cost_details");
    CostTears();
    TornIsRepaired("cost_details");
    StripsNothing("is_byok", Obj(Gap(NoMembers)));
    SanitizeIsValidIff(Repaired(), id);
    SanitizeIsValidOnWhole(Repaired(), id);
    StripFieldIsValidOnIntact("cost", Repaired());
    assert Close(Obj(Gap(NoMembers))) == Obj(NoMembers) && Print(Obj(NoMembers)) == "{}";
  }

  lemma CostTears()
    requires IsName("cost") && Plain("cost_details")
    ensures Strip("cost", Repaired()) == Torn("cost_details", ONE)
    ensures !ValidJson(StripField(Print(Repaired()), "cost"))
  {
    SelfNestedLeavesComma("cost", "cost_details", ONE, "b", ONE, Obj(NoMembers));
  }
}

/** Hold soundness: the increment-then-check hold is safe in every interleaving of one hash lifetime. */
module HoldSoundness {
  import opened Sums
  import opened Hold

  // What a request's own hold contributes to the held field.
  predicate Holding(pc: Pc) {
    match pc
    case SyncSelect(_) | SyncCreate(_) | SyncSetNx(_, _) => !pc.reason.Ensure?
    case Reread | ReadHeld(_) | Reverse => true
    case Done(o) => o.HoldStranded? || o.Completed? || o.Lost?
    case _ => Admitted(pc)
  }

  // Past the balance check, and its hold not released. A completed request never releases its hold.
  predicate Admitted(pc: Pc) {
    match pc
    case Track(_) | InFlight | Settle | ReleaseHeld(_) | Adjust(_) => true
    case Done(o) => o.Completed? || o.Lost?
    case _ => Charged(pc)
  }

  // Its settlement transaction has committed.
  predicate Charged(pc: Pc) {
    match pc
    case SyncSelect(_) | SyncCreate(_) | SyncSetNx(_, _) => pc.reason.Settled?
    case Adjust(_) => true
    case Done(o) => o.Completed?
    case _ => false
  }

  function HeldShare(): Request -> real { (r: Request) => if Holding(r.pc) then r.est else 0.0 }
  function AdmittedShare(): Request -> real { (r: Request) => if Admitted(r.pc) then r.est else 0.0 }
  function ChargedShare(): Request -> real { (r: Request) => if Charged(r.pc) then r.actual else 0.0 }
  function Slack(): Request -> real { (r: Request) => AdmittedShare()(r) - ChargedShare()(r) }

  // Estimates admitted and not released, and money actually charged.
  function AdmittedTotal(s: System): real { Sum(AdmittedShare(), s.reqs) }
  function ChargedTotal(s: System): real { Sum(ChargedShare(), s.reqs) }

  // The read of the held field fails, which is taken for nothing held, when the field would have refused.
  predicate HeldMisread(s: System, a: Act) {
    && a.Go? && a.who < |s.reqs| && !a.fate.Ok?
    && s.reqs[a.who].pc.ReadHeld? && s.reqs[a.who].pc.balance < s.sh.HeldAmount()
  }

  // A lifetime of the hash: no expiry, and the held field is not misread; top-ups only add.
  // Every other Redis command and every Postgres statement may fail, upstream calls may fail, trackers may be lost.
  predicate Lifetime(s: System, acts: seq<Act>)
    decreases |acts|
  {
    acts == [] ||
    var before := acts[..|acts| - 1];
    var last := acts[|acts| - 1];
    && Lifetime(s, before)
    && !last.Expire?
    && !HeldMisread(Run(s, before), last)
    && (last.Credit? ==> last.amount >= 0.0)
  }

  // What one request knows about the shared state, `ceiling` being wallet plus everything charged.
  predicate Local(sh: Shared, r: Request, ceiling: real) {
    && r.est >= 0.0 && r.actual >= 0.0
    && (r.pc.ReadHeld? ==> sh.cached == Some(r.pc.balance))
    && (r.pc.SyncSetNx? ==> sh.wallet.Some? && 0.0 <= r.pc.read <= ceiling)
    && (Admitted(r.pc) ==> sh.cached.Some?)
  }

  ghost predicate Inv(s: System) {
    && s.sh.HeldAmount() >= Sum(HeldShare(), s.reqs)
    && (forall r :: r in s.reqs ==> Local(s.sh, r, Balance(s.sh) + ChargedTotal(s)))
    && (s.sh.wallet.None? ==> ChargedTotal(s) == 0.0)
    && ChargedTotal(s) >= 0.0
    && (s.sh.wallet.Some? ==> s.sh.wallet.value >= 0.0)
    && (s.sh.cached.Some? ==>
          && AdmittedTotal(s) <= s.sh.cached.value
          && s.sh.cached.value <= Balance(s.sh) + ChargedTotal(s)
          && s.sh.wallet.Some?)
    && (s.sh.cached.None? ==> AdmittedTotal(s) == 0.0)
  }

  function Balance(sh: Shared): real { if sh.wallet.Some? then sh.wallet.value else 0.0 }

  // A failing command may leave a hold behind, never take away another request's.
  lemma MoveHeld(sh: Shared, r: Request, fate: Fate)
    ensures
      var (sh', pc) := Move(sh, r, fate);
      var held, share := sh'.HeldAmount() - sh.HeldAmount(), HeldShare()(r.(pc := pc)) - HeldShare()(r);
      && (r.est >= 0.0 ==> held >= share)
      && ((OnRedis(r.pc) ==> fate.Ok?) ==> held == share)
  {
    if !OnHeld(r.pc) {
      hide Move, Holding;
      SameHeld(sh, r, fate);
    }
  }

  predicate OnHeld(pc: Pc) { pc.PlaceHold? || pc.Reverse? || pc.ReleaseHeld? }

  lemma SameHeld(sh: Shared, r: Request, fate: Fate)
    requires !OnHeld(r.pc)
    ensures
      var (sh', pc) := Move(sh, r, fate);
      sh'.held == sh.held && (Holding(pc) <==> Holding(r.pc))
  {
  }

  lemma MoveCharged(sh: Shared, r: Request, fate: Fate)
    ensures
      var (sh', pc) := Move(sh, r, fate);
      && Balance(sh) - Balance(sh') == ChargedShare()(r.(pc := pc)) - ChargedShare()(r)
      && (sh.wallet.Some? ==> sh'.wallet.Some?)
      && (sh.cached.Some? ==> sh'.cached == sh.cached)
  {
  }

  lemma MoveAdmits(sh: Shared, r: Request, fate: Fate)
    requires r.pc.ReadHeld? && !fate.Ok? ==> sh.HeldAmount() <= r.pc.balance
    ensures
      var (sh', pc) := Move(sh, r, fate);
      Admitted(pc) && !Admitted(r.pc) ==> r.pc.ReadHeld? && sh.HeldAmount() <= r.pc.balance && sh' == sh
  {
  }

  // One command changes the wallet by exactly the change in its request's share, and the held field by at least
  // that, exactly that unless it fails.
  lemma MoveShares(sh: Shared, r: Request, fate: Fate)
    requires r.est >= 0.0
    requires r.pc.ReadHeld? && !fate.Ok? ==> sh.HeldAmount() <= r.pc.balance
    ensures
      var (sh', pc) := Move(sh, r, fate);
      var r' := r.(pc := pc);
      && sh'.HeldAmount() - sh.HeldAmount() >= HeldShare()(r') - HeldShare()(r)
      && ((OnRedis(r.pc) ==> fate.Ok?) ==>
            sh'.HeldAmount() - sh.HeldAmount() == HeldShare()(r') - HeldShare()(r))
      && Balance(sh) - Balance(sh') == ChargedShare()(r') - ChargedShare()(r)
      && (sh.wallet.Some? ==> sh'.wallet.Some?)
      && (sh.cached.Some? ==> sh'.cached == sh.cached)
      && (Admitted(pc) && !Admitted(r.pc) ==>
            r.pc.ReadHeld? && sh.HeldAmount() <= r.pc.balance && sh' == sh)
  {
    hide Move, Admitted;
    MoveHeld(sh, r, fate);
    MoveCharged(sh, r, fate);
    MoveAdmits(sh, r, fate);
  }

  // Whoever is admitted keeps knowing what it knew, whatever command another request issues.
  lemma MoveLocals(sh: Shared, r: Request, fate: Fate, ceiling: real)
    requires Local(sh, r, ceiling)
    requires 0.0 <= Balance(sh) <= ceiling
    ensures
      var (sh', pc) := Move(sh, r, fate);
      && Local(sh', r.(pc := pc), ceiling)
      && forall q :: Local(sh, q, ceiling) ==> Local(sh', q, ceiling)
  {
  }

  lemma AdmittedWithinHeld(reqs: seq<Request>)
    requires forall r :: r in reqs ==> r.est >= 0.0
    ensures Sum(AdmittedShare(), reqs) <= Sum(HeldShare(), reqs)
  {
    SumMonotone(AdmittedShare(), HeldShare(), reqs);
  }

  lemma GoTotals(s: System, i: nat, fate: Fate)
    requires Inv(s) && i < |s.reqs|
    requires !HeldMisread(s, Go(i, fate))
    ensures
      var s' := Step(s, Go(i, fate));
      && s'.sh.HeldAmount() >= Sum(HeldShare(), s'.reqs)
      && Balance(s'.sh) + ChargedTotal(s') == Balance(s.sh) + ChargedTotal(s)
      && AdmittedTotal(s') == AdmittedTotal(s) - AdmittedShare()(s.reqs[i]) + AdmittedShare()(s'.reqs[i])
  {
    var r := s.reqs[i];
    assert r in s.reqs;
    MoveShares(s.sh, r, fate);
    var r' := r.(pc := Move(s.sh, r, fate).1);
    SumUpdate(HeldShare(), s.reqs, i, r');
    SumUpdate(AdmittedShare(), s.reqs, i, r');
    SumUpdate(ChargedShare(), s.reqs, i, r');
  }

  lemma GoLocals(s: System, i: nat, fate: Fate)
    requires Inv(s) && i < |s.reqs|
    requires !HeldMisread(s, Go(i, fate))
    ensures
      var s' := Step(s, Go(i, fate));
      forall q :: q in s'.reqs ==> Local(s'.sh, q, Balance(s'.sh) + ChargedTotal(s'))
  {
    var r := s.reqs[i];
    var ceiling := Balance(s.sh) + ChargedTotal(s);
    var s' := Step(s, Go(i, fate));
    GoTotals(s, i, fate);
    assert r in s.reqs;
    MoveLocals(s.sh, r, fate, ceiling);
    forall q | q in s'.reqs
      ensures Local(s'.sh, q, ceiling)
    {
      assert q == s'.reqs[i] || q in s.reqs;
    }
  }

  // The admission step: the held field, all holds together, did not exceed the balance when it was read.
  lemma GoAdmission(s: System, i: nat, fate: Fate)
    requires Inv(s) && i < |s.reqs|
    requires !HeldMisread(s, Go(i, fate))
    ensures
      var s' := Step(s, Go(i, fate));
      && (s'.sh.cached.Some? ==> AdmittedTotal(s') <= s'.sh.cached.value)
      && (s'.sh.cached.None? ==> AdmittedTotal(s') == 0.0)
  {
    var r := s.reqs[i];
    assert r in s.reqs;
    var s' := Step(s, Go(i, fate));
    MoveShares(s.sh, r, fate);
    GoTotals(s, i, fate);
    GoLocals(s, i, fate);
    AdmittedWithinHeld(s'.reqs);
    if s.sh.cached.None? {
      SumZero(AdmittedShare(), s.reqs);
    }
  }

  lemma ChargedIsPositive(s: System)
    requires forall r :: r in s.reqs ==> r.actual >= 0.0
    ensures ChargedTotal(s) >= 0.0
  {
    SumNonNegative(ChargedShare(), s.reqs);
  }

  lemma GoKeepsInv(s: System, i: nat, fate: Fate)
    requires Inv(s) && i < |s.reqs|
    requires !HeldMisread(s, Go(i, fate))
    ensures Inv(Step(s, Go(i, fate)))
  {
    var r := s.reqs[i];
    assert r in s.reqs;
    var s' := Step(s, Go(i, fate));
    MoveShares(s.sh, r, fate);
    GoTotals(s, i, fate);
    GoLocals(s, i, fate);
    GoAdmission(s, i, fate);
    ChargedIsPositive(s');
    SumUpdate(ChargedShare(), s.reqs, i, s'.reqs[i]);
  }

  lemma StepKeepsInv(s: System, a: Act)
    requires Inv(s) && !a.Expire? && !HeldMisread(s, a)
    requires a.Credit? ==> a.amount >= 0.0
    ensures Inv(Step(s, a))
  {
    if a.Go? && a.who < |s.reqs| {
      GoKeepsInv(s, a.who, a.fate);
    } else if a.Credit? {
      var s' := Step(s, a);
      assert ChargedTotal(s') == ChargedTotal(s);
      forall q | q in s'.reqs
        ensures Local(s'.sh, q, Balance(s'.sh) + ChargedTotal(s'))
      {
        assert Local(s.sh, q, Balance(s.sh) + ChargedTotal(s));
      }
    }
  }

  // The hash does not exist yet, and the wallet, if there is one, is not overdrawn.
  predicate Start(s: System) {
    Fresh(s) && !s.sh.HashExists() && (s.sh.wallet.Some? ==> s.sh.wallet.value >= 0.0)
  }

  lemma StartInv(s: System)
    requires Start(s)
    ensures Inv(s)
  {
    SumZero(HeldShare(), s.reqs);
    SumZero(AdmittedShare(), s.reqs);
    SumZero(ChargedShare(), s.reqs);
  }

  lemma {:induction false} RunInv(s: System, acts: seq<Act>)
    requires Start(s) && Lifetime(s, acts)
    ensures Inv(Run(s, acts))
  {
    if acts == [] {
      StartInv(s);
    } else {
      var before := acts[..|acts| - 1];
      RunInv(s, before);
      StepKeepsInv(Run(s, before), acts[|acts| - 1]);
    }
  }

  /** In every reachable state, the estimates of the admitted requests whose hold was not released fit the
      cached balance; before there is one, nobody is admitted. */
  lemma HoldsFitTheBalance(s: System, acts: seq<Act>)
    requires Start(s) && Lifetime(s, acts)
    ensures
      var now := Run(s, acts);
      AdmittedTotal(now) <= (if now.sh.cached.Some? then now.sh.cached.value else 0.0)
    ensures Run(s, acts).sh.HeldAmount() >= Sum(HeldShare(), Run(s, acts).reqs)
  {
    RunInv(s, acts);
  }

  /** Without any failing Redis command the held field is exactly the sum of all holds. */
  lemma {:induction false} HeldIsEverybodys(s: System, acts: seq<Act>)
    requires Start(s) && NothingFails(s, acts) && forall a :: a in acts ==> !a.Expire?
    ensures Run(s, acts).sh.HeldAmount() == Sum(HeldShare(), Run(s, acts).reqs)
  {
    if acts == [] {
      SumZero(HeldShare(), s.reqs);
    } else {
      hide Move;
      var before := acts[..|acts| - 1];
      var last := acts[|acts| - 1];
      var mid := Run(s, before);
      HeldIsEverybodys(s, before);
      if last.Go? && last.who < |mid.reqs| {
        RunKeepsCosts(s, before);
        assert s.reqs[last.who] in s.reqs;
        MoveHeld(mid.sh, mid.reqs[last.who], last.fate);
        SumUpdate(HeldShare(), mid.reqs, last.who, Step(mid, last).reqs[last.who]);
      }
    }
  }

  /** Whoever reaches settlement can be charged: its actual cost is covered by the Postgres wallet, so the
      refused branch is never taken. */
  lemma SettlementIsCovered(s: System, acts: seq<Act>, i: nat)
    requires Start(s) && Lifetime(s, acts)
    requires forall r :: r in s.reqs ==> r.actual <= r.est
    requires i < |s.reqs| == |Run(s, acts).reqs| && Run(s, acts).reqs[i].pc.Settle?
    ensures Run(s, acts).sh.wallet.Some? && Run(s, acts).sh.wallet.value >= s.reqs[i].actual
  {
    RunInv(s, acts);
    RunKeepsCosts(s, acts);
    StaysCovered(s, Run(s, acts));
    InvCovers(Run(s, acts), i);
  }

  // The costs are within the estimates still.
  lemma StaysCovered(s: System, now: System)
    requires |now.reqs| == |s.reqs|
    requires forall j :: 0 <= j < |s.reqs| ==> now.reqs[j] == s.reqs[j].(pc := now.reqs[j].pc)
    requires forall r :: r in s.reqs ==> r.actual <= r.est
    ensures forall r :: r in now.reqs ==> r.actual <= r.est
  {
    forall r | r in now.reqs
      ensures r.actual <= r.est
    {
      var j :| 0 <= j < |now.reqs| && now.reqs[j] == r;
      assert s.reqs[j] in s.reqs;
    }
  }

  lemma InvCovers(now: System, i: nat)
    requires Inv(now) && forall r :: r in now.reqs ==> r.actual <= r.est
    requires i < |now.reqs| && now.reqs[i].pc.Settle?
    ensures now.sh.wallet.Some? && now.sh.wallet.value >= now.reqs[i].actual
  {
    var r := now.reqs[i];
    assert r in now.reqs;
    SumDifference(AdmittedShare(), ChargedShare(), Slack(), now.reqs);
    forall q | q in now.reqs
      ensures 0.0 <= Slack()(q)
    {
      assert Local(now.sh, q, Balance(now.sh) + ChargedTotal(now));
    }
    SumAtLeastTerm(Slack(), now.reqs, i);
  }

  /** No request of such a run is ever refused at settlement. */
  lemma {:induction false} NeverRefused(s: System, acts: seq<Act>)
    requires Start(s) && Lifetime(s, acts)
    requires forall r :: r in s.reqs ==> r.actual <= r.est
    ensures forall r :: r in Run(s, acts).reqs ==> r.pc != ReleaseHeld(true)
  {
    if acts != [] {
      var before := acts[..|acts| - 1];
      var last := acts[|acts| - 1];
      NeverRefused(s, before);
      var mid := Run(s, before);
      RunKeepsCosts(s, before);
      if last.Go? && last.who < |mid.reqs| {
        if mid.reqs[last.who].pc.Settle? {
          SettlementIsCovered(s, before, last.who);
        }
        assert mid.reqs[last.who] in mid.reqs;
        forall r | r in Run(s, acts).reqs
          ensures r.pc != ReleaseHeld(true)
        {
          assert r in mid.reqs || r == Run(s, acts).reqs[last.who];
        }
      }
    }
  }

  /** A schedule moves program counters only: keys, estimates and costs stay. */
  lemma {:induction false} RunKeepsCosts(s: System, acts: seq<Act>)
    ensures |Run(s, acts).reqs| == |s.reqs|
    ensures forall j :: 0 <= j < |s.reqs| ==> Run(s, acts).reqs[j] == s.reqs[j].(pc := Run(s, acts).reqs[j].pc)
    ensures Run(s, acts).sh.limits == s.sh.limits
  {
    if acts != [] {
      RunKeepsCosts(s, acts[..|acts| - 1]);
    }
  }
}

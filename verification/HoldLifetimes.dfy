/** Hold soundness over any number of lifetimes of the balance hash: when it may expire, and when not. */
module HoldLifetimes {
  import opened Sums
  import opened Hold
  import opened HoldSoundness
  import opened Engine
  import Edges = HoldEdges

  // A request an expiry does no harm to: it holds nothing yet or nothing any more, and a balance it has read and
  // not yet written to the cache is still there.
  predicate Rests(sh: Shared, pc: Pc) {
    match pc
    case LimitGet(_) | LimitSum(_) | CacheExists | PlaceHold | ReleaseTrack(_) | Adjust(_) | Done(_) => true
    case SyncSelect(reason) => !reason.Resync?
    case SyncCreate(reason) => !reason.Resync?
    case SyncSetNx(reason, read) => !reason.Resync? && read <= Balance(sh)
    case _ => false
  }

  predicate Quiet(s: System) { forall r :: r in s.reqs ==> Rests(s.sh, r.pc) }

  // Like Lifetime, with expiries in quiet states.
  predicate Lifetimes(s: System, acts: seq<Act>)
    decreases |acts|
  {
    acts == [] ||
    var before := acts[..|acts| - 1];
    var last := acts[|acts| - 1];
    && Lifetimes(s, before)
    && (last.Expire? ==> Quiet(Run(s, before)))
    && !HeldMisread(Run(s, before), last)
    && (last.Credit? ==> last.amount >= 0.0)
  }

  // Ended, or charged and with nothing left to do but refresh the cache and the trackers.
  predicate Spent(pc: Pc) { pc.Done? || Charged(pc) }

  // The requests that were spent at the last expiry. The current lifetime knows nothing of them.
  function Forgotten(s: System, acts: seq<Act>): set<nat> {
    if acts == [] then {}
    else
      var before := acts[..|acts| - 1];
      if acts[|acts| - 1].Expire? then AllSpent(Run(s, before)) else Forgotten(s, before)
  }

  function AllSpent(s: System): set<nat> { set i: nat | i < |s.reqs| && Spent(s.reqs[i].pc) }

  // The run as the current lifetime sees it.
  function View(s: System, past: set<nat>): System {
    s.(reqs := seq(|s.reqs|, i requires 0 <= i < |s.reqs| =>
      if i in past then s.reqs[i].(pc := Done(Unavailable)) else s.reqs[i]))
  }

  function Ceiling(s: System): real { Balance(s.sh) + ChargedTotal(s) }

  // What a forgotten request may still do: write a balance to the cache that is covered.
  predicate Faded(sh: Shared, r: Request, ceiling: real) {
    && Spent(r.pc) && r.est >= 0.0 && r.actual >= 0.0
    && (r.pc.SyncSetNx? ==> sh.wallet.Some? && 0.0 <= r.pc.read <= ceiling)
  }

  ghost predicate Sound(s: System, past: set<nat>) {
    && Inv(View(s, past))
    && forall i :: i in past && i < |s.reqs| ==> Faded(s.sh, s.reqs[i], Ceiling(View(s, past)))
  }

  // ---- Steps within a lifetime ----

  lemma ViewGo(s: System, past: set<nat>, i: nat, fate: Fate)
    requires i < |s.reqs|
    ensures i !in past ==> View(Step(s, Go(i, fate)), past) == Step(View(s, past), Go(i, fate))
    ensures i in past ==>
      View(Step(s, Go(i, fate)), past) == View(s, past).(sh := Move(s.sh, s.reqs[i], fate).0)
    ensures i !in past ==> (HeldMisread(s, Go(i, fate)) <==> HeldMisread(View(s, past), Go(i, fate)))
  {
  }

  lemma FadedStays(sh: Shared, r: Request, fate: Fate, ceiling: real)
    requires Faded(sh, r, ceiling) && 0.0 <= Balance(sh) <= ceiling
    ensures
      var (sh', pc) := Move(sh, r, fate);
      && Faded(sh', r.(pc := pc), ceiling)
      && Balance(sh') == Balance(sh) && sh'.held == sh.held
      && (sh.wallet.Some? ==> sh'.wallet == sh.wallet)
      && (sh'.cached == sh.cached
          || (sh.cached.None? && sh.wallet.Some? && sh'.cached.Some? && 0.0 <= sh'.cached.value <= ceiling))
  {
  }

  // A forgotten request may create a wallet row or fill an empty cache; neither harms the current lifetime.
  lemma FadedKeepsInv(e: System, sh: Shared)
    requires Inv(e)
    requires Balance(sh) == Balance(e.sh) && sh.held == e.sh.held
    requires e.sh.wallet.Some? ==> sh.wallet == e.sh.wallet
    requires sh.cached == e.sh.cached
             || (e.sh.cached.None? && e.sh.wallet.Some? && sh.cached.Some? && 0.0 <= sh.cached.value <= Ceiling(e))
    ensures Inv(e.(sh := sh))
  {
    var now := e.(sh := sh);
    assert ChargedTotal(now) == ChargedTotal(e) && AdmittedTotal(now) == AdmittedTotal(e);
    forall q | q in now.reqs
      ensures Local(now.sh, q, Balance(now.sh) + ChargedTotal(now))
    {
      assert Local(e.sh, q, Balance(e.sh) + ChargedTotal(e));
    }
  }

  lemma CeilingIsCovered(e: System)
    requires Inv(e)
    ensures 0.0 <= Balance(e.sh) <= Ceiling(e)
  {
  }

  // Steps of the others leave a faded request faded.
  lemma FadedHolds(sh: Shared, sh': Shared, r: Request, ceiling: real, ceiling': real)
    requires Faded(sh, r, ceiling) && ceiling <= ceiling' && (sh.wallet.Some? ==> sh'.wallet.Some?)
    ensures Faded(sh', r, ceiling')
  {
  }

  lemma GoKeepsSound(s: System, past: set<nat>, i: nat, fate: Fate)
    requires Sound(s, past) && i < |s.reqs| && !HeldMisread(s, Go(i, fate))
    ensures Sound(Step(s, Go(i, fate)), past)
  {
    var s' := Step(s, Go(i, fate));
    var e, e' := View(s, past), View(s', past);
    hide Inv, Faded, HeldMisread, Step, View, Local, Move;
    ViewGo(s, past, i, fate);
    ViewShape(s, past);
    CeilingIsCovered(e);
    StepShape(s, i, fate);
    if i in past {
      FadedStays(s.sh, s.reqs[i], fate, Ceiling(e));
      FadedKeepsInv(e, s'.sh);
    } else {
      GoKeepsInv(e, i, fate);
      GoTotals(e, i, fate);
      MoveCharged(s.sh, s.reqs[i], fate);
    }
    ViewShape(s', past);
    forall j | j in past && j < |s'.reqs|
      ensures Faded(s'.sh, s'.reqs[j], Ceiling(e'))
    {
      if j != i { FadedHolds(s.sh, s'.sh, s.reqs[j], Ceiling(e), Ceiling(e')); }
    }
  }

  lemma StepShape(s: System, i: nat, fate: Fate)
    requires i < |s.reqs|
    ensures
      var (sh, pc) := Move(s.sh, s.reqs[i], fate);
      Step(s, Go(i, fate)) == System(sh, s.reqs[i := s.reqs[i].(pc := pc)])
  {
  }

  lemma ViewShape(s: System, past: set<nat>)
    ensures View(s, past).sh == s.sh && |View(s, past).reqs| == |s.reqs|
    ensures forall i :: 0 <= i < |s.reqs| ==>
      View(s, past).reqs[i] == if i in past then s.reqs[i].(pc := Done(Unavailable)) else s.reqs[i]
  {
  }

  // Top-ups raise the ceiling, lost trackers are nobody's business here.
  lemma OtherKeepsSound(s: System, past: set<nat>, a: Act)
    requires Sound(s, past) && (a.Evict? || (a.Credit? && a.amount >= 0.0) || (a.Go? && a.who >= |s.reqs|))
    ensures Sound(Step(s, a), past)
  {
    var s' := Step(s, a);
    var e, e' := View(s, past), View(s', past);
    assert e' == Step(e, a);
    StepKeepsInv(e, a);
    assert ChargedTotal(e') == ChargedTotal(e);
    forall j | j in past && j < |s'.reqs|
      ensures Faded(s'.sh, s'.reqs[j], Ceiling(e'))
    {
      FadedHolds(s.sh, s'.sh, s.reqs[j], Ceiling(e), Ceiling(e'));
    }
  }

  // ---- A quiet expiry begins a new lifetime ----

  lemma QuietRequest(s: System, past: set<nat>, i: nat)
    requires Sound(s, past) && i < |s.reqs| && Rests(s.sh, s.reqs[i].pc)
    ensures
      var now := Step(s, Expire);
      var r := s.reqs[i];
      && r.est >= 0.0 && r.actual >= 0.0
      && (Spent(r.pc) ==> Faded(now.sh, r, Balance(now.sh)))
      && (!Spent(r.pc) ==>
            !Holding(r.pc) && !Admitted(r.pc) && !Charged(r.pc) && Local(now.sh, r, Balance(now.sh)))
  {
    var e := View(s, past);
    assert e.reqs[i] in e.reqs;
  }

  lemma ExpiryKeepsSound(s: System, past: set<nat>)
    requires Sound(s, past) && Quiet(s)
    ensures Sound(Step(s, Expire), AllSpent(s))
  {
    var now := Step(s, Expire);
    var e := View(now, AllSpent(s));
    forall r | r in e.reqs
      ensures !Holding(r.pc) && !Admitted(r.pc) && !Charged(r.pc) && Local(now.sh, r, Balance(now.sh))
    {
      var i :| 0 <= i < |e.reqs| && e.reqs[i] == r;
      assert s.reqs[i] in s.reqs;
      QuietRequest(s, past, i);
    }
    SumZero(HeldShare(), e.reqs);
    SumZero(AdmittedShare(), e.reqs);
    SumZero(ChargedShare(), e.reqs);
    assert View(s, past).sh == s.sh;
    forall i | i in AllSpent(s) && i < |now.reqs|
      ensures Faded(now.sh, now.reqs[i], Ceiling(e))
    {
      assert s.reqs[i] in s.reqs;
      QuietRequest(s, past, i);
    }
  }

  lemma NobodyForgotten(s: System)
    requires Inv(s)
    ensures Sound(s, {})
  {
    assert View(s, {}) == s;
  }

  lemma {:induction false} RunIsSound(s: System, acts: seq<Act>)
    requires Start(s) && Lifetimes(s, acts)
    ensures Sound(Run(s, acts), Forgotten(s, acts))
  {
    hide Inv, Start, Step, Quiet, HeldMisread, Sound, View, AllSpent;
    if acts == [] {
      StartInv(s);
      NobodyForgotten(s);
    } else {
      var before := acts[..|acts| - 1];
      var last := acts[|acts| - 1];
      var mid := Run(s, before);
      RunIsSound(s, before);
      if last.Expire? {
        ExpiryKeepsSound(mid, Forgotten(s, before));
      } else if last.Go? && last.who < |mid.reqs| {
        GoKeepsSound(mid, Forgotten(s, before), last.who, last.fate);
      } else {
        OtherKeepsSound(mid, Forgotten(s, before), last);
      }
    }
  }

  // The estimate of a request that is admitted and neither charged nor released.
  function LiveShare(): Request -> real {
    (r: Request) => if Admitted(r.pc) && !Spent(r.pc) then r.est else 0.0
  }

  function LiveTotal(s: System): real { Sum(LiveShare(), s.reqs) }

  lemma SoundFits(s: System, past: set<nat>)
    requires Sound(s, past)
    ensures
      var cached := if s.sh.cached.Some? then s.sh.cached.value else 0.0;
      LiveTotal(s) <= AdmittedTotal(View(s, past)) <= cached
  {
    var e := View(s, past);
    ViewShape(s, past);
    forall i | 0 <= i < |s.reqs|
      ensures LiveShare()(s.reqs[i]) <= AdmittedShare()(e.reqs[i])
    {
      if i in past {
        assert Faded(s.sh, s.reqs[i], Ceiling(e));
      } else {
        assert e.reqs[i] in e.reqs;
      }
    }
    SumBelow(LiveShare(), AdmittedShare(), s.reqs, e.reqs);
  }

  /** Over any number of lifetimes, in every reachable state, the estimates of all requests admitted in the current
      lifetime fit the cached balance, whatever they have done since; and so do those of all requests in flight. */
  lemma LiveHoldsFitTheBalance(s: System, acts: seq<Act>)
    requires Start(s) && Lifetimes(s, acts)
    ensures
      var now := Run(s, acts);
      var cached := if now.sh.cached.Some? then now.sh.cached.value else 0.0;
      LiveTotal(now) <= AdmittedTotal(View(now, Forgotten(s, acts))) <= cached
  {
    hide Sound;
    RunIsSound(s, acts);
    SoundFits(Run(s, acts), Forgotten(s, acts));
  }

  lemma SoundCovers(s: System, past: set<nat>, i: nat)
    requires Sound(s, past) && forall r :: r in s.reqs ==> r.actual <= r.est
    requires i < |s.reqs| && s.reqs[i].pc.Settle?
    ensures s.sh.wallet.Some? && s.sh.wallet.value >= s.reqs[i].actual
  {
    var e := View(s, past);
    assert i in past ==> Faded(s.sh, s.reqs[i], Ceiling(e));
    forall r | r in e.reqs
      ensures r.actual <= r.est
    {
      var j :| 0 <= j < |e.reqs| && e.reqs[j] == r;
      assert s.reqs[j] in s.reqs;
    }
    InvCovers(e, i);
  }

  /** Whoever reaches settlement in any of the lifetimes can be charged. */
  lemma SettlementStaysCovered(s: System, acts: seq<Act>, i: nat)
    requires Start(s) && Lifetimes(s, acts)
    requires forall r :: r in s.reqs ==> r.actual <= r.est
    requires i < |s.reqs| == |Run(s, acts).reqs| && Run(s, acts).reqs[i].pc.Settle?
    ensures Run(s, acts).sh.wallet.Some? && Run(s, acts).sh.wallet.value >= s.reqs[i].actual
  {
    hide Sound;
    RunIsSound(s, acts);
    RunKeepsCosts(s, acts);
    StaysCovered(s, Run(s, acts));
    SoundCovers(Run(s, acts), Forgotten(s, acts), i);
  }

  /** So no request is ever refused at settlement, however often the hash expires in between. */
  lemma {:induction false} NeverRefusedAgain(s: System, acts: seq<Act>)
    requires Start(s) && Lifetimes(s, acts)
    requires forall r :: r in s.reqs ==> r.actual <= r.est
    ensures forall r :: r in Run(s, acts).reqs ==> r.pc != ReleaseHeld(true)
  {
    if acts != [] {
      hide Start, HeldMisread, Quiet;
      var before := acts[..|acts| - 1];
      var last := acts[|acts| - 1];
      NeverRefusedAgain(s, before);
      var mid := Run(s, before);
      RunKeepsCosts(s, before);
      if last.Go? && last.who < |mid.reqs| && mid.reqs[last.who].pc.Settle? {
        SettlementStaysCovered(s, before, last.who);
      }
      StepRefuses(mid, last);
    }
  }

  // Only a settlement that is not covered refuses.
  lemma StepRefuses(s: System, a: Act)
    requires forall r :: r in s.reqs ==> r.pc != ReleaseHeld(true)
    requires a.Go? && a.who < |s.reqs| && s.reqs[a.who].pc.Settle? ==>
               s.sh.wallet.Some? && s.sh.wallet.value >= s.reqs[a.who].actual
    ensures forall r :: r in Step(s, a).reqs ==> r.pc != ReleaseHeld(true)
  {
    if a.Go? && a.who < |s.reqs| {
      assert s.reqs[a.who] in s.reqs;
      forall r | r in Step(s, a).reqs
        ensures r.pc != ReleaseHeld(true)
      {
        assert r in s.reqs || r == Step(s, a).reqs[a.who];
      }
    }
  }

  // ---- Quiet is needed, and more than it seems: a balance that was read must not outlive the hash ----

  // Runs request i until it rests.
  lemma ThenAlone(s: System, acts: seq<Act>, i: nat) returns (longer: seq<Act>)
    requires i < |Run(s, acts).reqs|
    ensures
      var t := Run(s, acts);
      var (sh, r) := Drive(t.sh, t.reqs[i], Edges.AllOk());
      Run(s, longer) == System(sh, t.reqs[i := r])
    ensures Smooth(acts) ==> Smooth(longer)
  {
    hide Run, Drive, Alone;
    var t := Run(s, acts);
    var more := Alone(t.sh, t.reqs[i], i, Edges.AllOk());
    AloneGoes(t.sh, t.reqs[i], i, Edges.AllOk());
    longer := acts + more;
    RunConcat(s, acts, more);
    DriveIsASchedule(t, i, Edges.AllOk());
  }

  // Request 0 has read the balance for the cache and not yet written it.
  function Reader(balance: real): Request { Request("key", balance, balance, SyncSetNx(Ensure, balance)) }

  lemma ReadsFirst(balance: real) returns (s: System, acts: seq<Act>)
    requires balance > 0.0
    ensures
      var r := Edges.Request0("key", balance, balance);
      s == System(Edges.Empty(balance, map[]), [r, r]) && Run(s, acts) == s.(reqs := [Reader(balance), r])
    ensures Smooth(acts)
  {
    var r := Edges.Request0("key", balance, balance);
    s := System(Edges.Empty(balance, map[]), [r, r]);
    var r1, r2, r3 := r.(pc := LimitGet(Monthly)), r.(pc := CacheExists), r.(pc := SyncSelect(Ensure));
    var a := Go(0, Ok);
    assert Step(s, a) == s.(reqs := [r1, r]);
    assert Step(s.(reqs := [r1, r]), a) == s.(reqs := [r2, r]);
    assert Step(s.(reqs := [r2, r]), a) == s.(reqs := [r3, r]);
    assert Step(s.(reqs := [r3, r]), a) == s.(reqs := [Reader(balance), r]);
    acts := [];
    acts := Then(s, acts, a);
    acts := Then(s, acts, a);
    acts := Then(s, acts, a);
    acts := Then(s, acts, a);
  }

  lemma DrivesToFlight(sh: Shared, r: Request)
    requires r.pc == LimitGet(Daily) && sh.Limit(r.key, Daily).None? && sh.Limit(r.key, Monthly).None?
    requires !sh.HashExists() && sh.wallet.Some? && r.est <= sh.wallet.value
    ensures
      var (sh', r') := Drive(sh, r, Edges.AllOk());
      r' == r.(pc := InFlight) && sh'.wallet == sh.wallet && sh'.cached.Some?
  {
    hide Drive;
    DriveOne(sh, r, Edges.AllOk());
    Edges.AdmittedFromColdCache(sh, r.(pc := LimitGet(Monthly)));
  }

  lemma DrivesToEnd(sh: Shared, r: Request)
    requires r.pc == Settle && sh.wallet.Some? && r.actual <= sh.wallet.value
    ensures
      var (sh', r') := Drive(sh, r, Edges.AllOk());
      r' == r.(pc := Done(Completed)) && sh'.wallet == Some(sh.wallet.value - r.actual)
  {
    hide Drive;
    var (sh1, _) := Move(sh, r, Ok);
    DriveOne(sh, r, Edges.AllOk());
    hide Move;
    CommitEnds(sh1, r.(pc := SyncSelect(Settled)));
  }

  lemma CommitEnds(sh: Shared, r: Request)
    requires r.pc == SyncSelect(Settled) && sh.wallet.Some?
    ensures
      var (sh', r') := Drive(sh, r, Edges.AllOk());
      r' == r.(pc := Done(Completed)) && sh'.wallet == sh.wallet
  {
    var fate, caching := Edges.AllOk(), r.(pc := SyncSetNx(Settled, sh.wallet.value));
    hide Drive;
    var (sh1, _) := Move(sh, caching, Ok);
    DriveOne(sh, r, fate);
    DriveOne(sh, caching, fate);
    hide Move;
    AdjustEnds(sh1, r.(pc := Adjust(Daily)));
  }

  lemma AdjustEnds(sh: Shared, r: Request)
    requires r.pc == Adjust(Daily)
    ensures
      var (sh', r') := Drive(sh, r, Edges.AllOk());
      r' == r.(pc := Done(Completed)) && sh'.wallet == sh.wallet
  {
    var fate, next := Edges.AllOk(), r.(pc := Adjust(Monthly));
    hide Drive;
    var (sh1, _) := Move(sh, r, Ok);
    var (sh2, _) := Move(sh1, next, Ok);
    DriveOne(sh, r, fate);
    DriveOne(sh1, next, fate);
    DriveRests(sh2, r.(pc := Done(Completed)), fate);
  }

  lemma StaleReaderIsAdmitted(sh: Shared, r: Request)
    requires r.pc.SyncSetNx? && r.pc.reason.Ensure? && !sh.HashExists() && r.est <= r.pc.read
    ensures
      var (sh', r') := Drive(sh, r, Edges.AllOk());
      r' == r.(pc := InFlight) && sh'.wallet == sh.wallet
  {
    hide Drive;
    DriveOne(sh, r, Edges.AllOk());
    Edges.AdmittedFromWarmCache(sh.(cached := Some(r.pc.read)), r.(pc := PlaceHold));
  }

  /** A request that has read the balance but holds nothing yet is enough to break it: another one spends
      everything and ends, the hash expires, the old balance is written and admitted against, and settlement
      is refused. */
  lemma StaleReadIsRefused(balance: real) returns (s: System, early: seq<Act>, late: seq<Act>)
    requires balance > 0.0
    ensures Start(s) && forall r :: r in s.reqs ==> r.actual <= r.est
    ensures
      var expiring := Run(s, early);
      && (forall r :: r in expiring.reqs ==> Rests(expiring.sh, r.pc) || r.pc == SyncSetNx(Ensure, balance))
      && |expiring.reqs| == 2
      && expiring.reqs[0].pc == SyncSetNx(Ensure, balance) && expiring.reqs[1].pc == Done(Completed)
    ensures Smooth(early) && Smooth(late)
    ensures |Run(s, early + [Expire] + late).reqs| == 2
    ensures Run(s, early + [Expire] + late).reqs[0].pc == ReleaseHeld(true)
  {
    hide Run, Drive, Alone;
    s, early := ReadsFirst(balance);
    var r := s.reqs[1];
    var t := Run(s, early);
    DrivesToFlight(t.sh, r);
    early := ThenAlone(s, early, 1);
    t := Run(s, early);
    assert t.reqs == [Reader(balance), r.(pc := InFlight)];
    early := Then(s, early, Go(1, Ok));
    t := Run(s, early);
    assert t.reqs == [Reader(balance), r.(pc := Settle)];
    DrivesToEnd(t.sh, t.reqs[1]);
    early := ThenAlone(s, early, 1);
    t := Run(s, early);
    assert t.reqs == [Reader(balance), r.(pc := Done(Completed))] && t.sh.wallet == Some(0.0);
    var all := Then(s, early, Expire);
    late := RefusedAfter(s, all, balance);
  }

  // The hash is gone, the wallet empty, and request 0 writes the balance it had read.
  lemma RefusedAfter(s: System, acts: seq<Act>, balance: real) returns (late: seq<Act>)
    requires balance > 0.0
    requires
      var t := Run(s, acts);
      |t.reqs| == 2 && t.reqs[0] == Reader(balance) && !t.sh.HashExists() && t.sh.wallet == Some(0.0)
    ensures |Run(s, acts + late).reqs| == 2 && Run(s, acts + late).reqs[0].pc == ReleaseHeld(true)
    ensures Smooth(late)
  {
    hide Run, Drive, Alone;
    var t := Run(s, acts);
    StaleReaderIsAdmitted(t.sh, t.reqs[0]);
    var more := Alone(t.sh, t.reqs[0], 0, Edges.AllOk());
    AloneGoes(t.sh, t.reqs[0], 0, Edges.AllOk());
    DriveIsASchedule(t, 0, Edges.AllOk());
    late := more + [Go(0, Ok), Go(0, Ok)];
    var u := Run(t, more);
    assert u.reqs[0].pc == InFlight;
    TwoMore(u);
    RunConcat(s, acts, late);
    RunConcat(t, more, [Go(0, Ok), Go(0, Ok)]);
  }

  lemma TwoMore(u: System)
    requires |u.reqs| == 2 && u.reqs[0].pc.InFlight?
    requires u.sh.wallet.None? || u.sh.wallet.value < u.reqs[0].actual
    ensures
      var v := Run(u, [Go(0, Ok), Go(0, Ok)]);
      |v.reqs| == 2 && v.reqs[0].pc == ReleaseHeld(true)
  {
    var two := [Go(0, Ok), Go(0, Ok)];
    assert two[..1] == [Go(0, Ok)];
    RunOne(u, Go(0, Ok));
    assert Run(u, two) == Step(Run(u, two[..1]), Go(0, Ok));
  }
}

/** Where the guarantees of the hold protocol stop, and what one call undoes of another. */
module HoldEdges {
  import opened Sums
  import opened Hold
  import opened Engine
  import Soundness = HoldSoundness
  import Limits = SpendLimit

  function AllOk(): Pc -> Fate { (pc: Pc) => Ok }

  function Request0(key: string, est: real, actual: real): Request { Request(key, est, actual, LimitGet(Daily)) }

  // Without Redis failures a driven request moves the held field and every tracker by its own shares.
  lemma {:induction false} DriveHolds(sh: Shared, r: Request)
    ensures
      var (sh', r') := Drive(sh, r, AllOk());
      sh'.HeldAmount() - sh.HeldAmount() == Soundness.HeldShare()(r') - Soundness.HeldShare()(r)
    decreases Rank(r.pc)
  {
    hide Drive, Move, Rank;
    if Resting(r.pc) {
      DriveRests(sh, r, AllOk());
    } else {
      var (sh', pc) := Move(sh, r, Ok);
      DriveOne(sh, r, AllOk());
      RankFalls(sh, r, Ok);
      MoveHolds(sh, r);
      DriveHolds(sh', r.(pc := pc));
    }
  }

  lemma {:induction false} DriveTracks(sh: Shared, r: Request, key: string, w: Window)
    ensures
      var (sh', r') := Drive(sh, r, AllOk());
      sh'.Tracked(key, w) - sh.Tracked(key, w)
      == (if r.key == key then Limits.Share(r', w) - Limits.Share(r, w) else 0.0)
    decreases Rank(r.pc)
  {
    hide Drive, Move, Rank;
    if Resting(r.pc) {
      DriveRests(sh, r, AllOk());
    } else {
      var (sh', pc) := Move(sh, r, Ok);
      DriveOne(sh, r, AllOk());
      RankFalls(sh, r, Ok);
      Limits.MoveShare(sh, r, Ok, key, w);
      DriveTracks(sh', r.(pc := pc), key, w);
    }
  }

  lemma MoveHolds(sh: Shared, r: Request)
    ensures
      var (sh', pc) := Move(sh, r, Ok);
      sh'.HeldAmount() - sh.HeldAmount()
      == Soundness.HeldShare()(r.(pc := pc)) - Soundness.HeldShare()(r)
  {
    Soundness.MoveHeld(sh, r, Ok);
  }

  /** A request that was admitted and then failed upstream leaves the held amount and every tracker of every
      key as it found them. */
  lemma ReleaseUndoesPreCheck(sh: Shared, r: Request, key: string, w: Window)
    requires r.pc == LimitGet(Daily) && r.key != ""
    requires Drive(sh, r, AllOk()).1.pc.InFlight?
    ensures
      var (admitted, r') := Drive(sh, r, AllOk());
      var (released, _) := Drive(admitted, r'.(pc := ReleaseHeld(false)), AllOk());
      && released.HeldAmount() == sh.HeldAmount()
      && released.Tracked(key, w) == sh.Tracked(key, w)
  {
    hide Drive;
    var (admitted, r') := Drive(sh, r, AllOk());
    DriveKeepsCosts(sh, r);
    var leaving := r'.(pc := ReleaseHeld(false));
    DriveHolds(sh, r);
    DriveTracks(sh, r, key, w);
    DriveHolds(admitted, leaving);
    DriveTracks(admitted, leaving, key, w);
    ReleaseEnds(admitted, leaving);
  }

  /** The same in every interleaving, one lifetime long and without failing Redis commands: what is held, tracked and
      recorded in the presence of a released request is what all the others make of it. */
  lemma ReleasedLeavesNoTrace(s: System, acts: seq<Act>, i: nat, key: string, w: Window)
    requires Soundness.Start(s) && NothingFails(s, acts) && forall a :: a in acts ==> !a.Expire?
    requires Limits.Tracking(s, acts, key, w)
    requires i < |Run(s, acts).reqs| && Run(s, acts).reqs[i].pc == Done(Released)
    ensures
      var now := Run(s, acts);
      var others := now.reqs[..i] + now.reqs[i + 1..];
      && now.sh.HeldAmount() == Sum(Soundness.HeldShare(), others)
      && now.sh.Tracked(key, w) == s.sh.Tracked(key, w) + Sum(Limits.TrackShare(key, w), others)
      && now.sh.Recorded(key, w) == s.sh.Recorded(key, w) + Sum(Limits.RecordShare(key), others)
  {
    hide Run, NothingFails, Limits.Tracking;
    var reqs := Run(s, acts).reqs;
    Soundness.HeldIsEverybodys(s, acts);
    Limits.TrackerIdentity(s, acts, key, w);
    SumRemove(Soundness.HeldShare(), reqs, i);
    SumRemove(Limits.TrackShare(key, w), reqs, i);
    SumRemove(Limits.RecordShare(key), reqs, i);
  }

  lemma {:induction false} DriveKeepsCosts(sh: Shared, r: Request)
    ensures Drive(sh, r, AllOk()).1 == r.(pc := Drive(sh, r, AllOk()).1.pc)
    ensures Drive(sh, r, AllOk()).0.limits == sh.limits
    decreases Rank(r.pc)
  {
    hide Drive, Move, Rank;
    if Resting(r.pc) {
      DriveRests(sh, r, AllOk());
    } else {
      var (sh', pc) := Move(sh, r, Ok);
      DriveOne(sh, r, AllOk());
      RankFalls(sh, r, Ok);
      MoveKeepsLimits(sh, r, Ok);
      DriveKeepsCosts(sh', r.(pc := pc));
    }
  }

  lemma MoveKeepsLimits(sh: Shared, r: Request, fate: Fate)
    ensures Move(sh, r, fate).0.limits == sh.limits
  {
  }

  lemma ReleaseEnds(sh: Shared, r: Request)
    requires r.pc.ReleaseHeld? && r.key != ""
    ensures Drive(sh, r, AllOk()).1.pc == Done(Released)
  {
    var fate := AllOk();
    var sh1 := sh.HIncrHeld(-r.est);
    var sh2 := sh1.IncrTracker(r.key, Daily, -r.est);
    hide Drive, Move;
    MoveReleases(sh, r, Ok);
    MoveReleases(sh1, r.(pc := ReleaseTrack(Daily)), Ok);
    MoveReleases(sh2, r.(pc := ReleaseTrack(Monthly)), Ok);
    DriveOne(sh, r, fate);
    DriveOne(sh1, r.(pc := ReleaseTrack(Daily)), fate);
    DriveOne(sh2, r.(pc := ReleaseTrack(Monthly)), fate);
    DriveRests(sh2.IncrTracker(r.key, Monthly, -r.est), r.(pc := Done(Released)), fate);
  }

  // Past the limit checks, with an empty balance hash and a wallet that covers the estimate.
  lemma AdmittedFromColdCache(sh: Shared, r: Request)
    requires r.pc == LimitGet(Monthly) && sh.Limit(r.key, Monthly).None?
    requires !sh.HashExists() && sh.wallet.Some? && r.est <= sh.wallet.value
    ensures
      var (sh', r') := Drive(sh, r, AllOk());
      && r' == r.(pc := InFlight)
      && sh' == sh.(cached := sh.wallet, held := Some(r.est))
                  .IncrTracker(r.key, Daily, r.est).IncrTracker(r.key, Monthly, r.est)
  {
    var fate := AllOk();
    var warm := sh.(cached := sh.wallet);
    hide Drive;
    DriveOne(sh, r, fate);
    DriveOne(sh, r.(pc := CacheExists), fate);
    DriveOne(sh, r.(pc := SyncSelect(Ensure)), fate);
    DriveOne(sh, r.(pc := SyncSetNx(Ensure, sh.wallet.value)), fate);
    AdmittedFromWarmCache(warm, r.(pc := PlaceHold));
  }

  // From the first tracker to the upstream call.
  lemma Tracks(sh: Shared, r: Request, fate: Pc -> Fate)
    requires r.pc == Track(Daily) && fate(Track(Daily)).Ok? && fate(Track(Monthly)).Ok?
    ensures Drive(sh, r, fate)
            == (sh.IncrTracker(r.key, Daily, r.est).IncrTracker(r.key, Monthly, r.est), r.(pc := InFlight))
  {
    hide Drive;
    var once := sh.IncrTracker(r.key, Daily, r.est);
    DriveOne(sh, r, fate);
    DriveOne(once, r.(pc := Track(Monthly)), fate);
    DriveRests(once.IncrTracker(r.key, Monthly, r.est), r.(pc := InFlight), fate);
  }

  lemma AdmittedFromWarmCache(sh: Shared, r: Request)
    requires r.pc == PlaceHold && sh.cached.Some? && sh.HeldAmount() + r.est <= sh.cached.value
    ensures
      var (sh', r') := Drive(sh, r, AllOk());
      && r' == r.(pc := InFlight)
      && sh' == sh.HIncrHeld(r.est).IncrTracker(r.key, Daily, r.est).IncrTracker(r.key, Monthly, r.est)
  {
    var fate := AllOk();
    var held := sh.HIncrHeld(r.est);
    hide Drive;
    DriveOne(sh, r, fate);
    DriveOne(held, r.(pc := ReadHeld(sh.cached.value)), fate);
    Tracks(held, r.(pc := Track(Daily)), fate);
  }

  function Empty(wallet: real, limits: map<(string, Window), real>): Shared {
    Shared(None, None, map[], Some(wallet), [], limits)
  }

  // The same from the start, for a key without limits.
  lemma FliesFromColdCache(sh: Shared, r: Request)
    requires r.pc == LimitGet(Daily) && sh.Limit(r.key, Daily).None? && sh.Limit(r.key, Monthly).None?
    requires !sh.HashExists() && sh.wallet.Some? && r.est <= sh.wallet.value
    ensures
      var (sh', r') := Drive(sh, r, AllOk());
      && r' == r.(pc := InFlight)
      && sh' == sh.(cached := sh.wallet, held := Some(r.est))
                  .IncrTracker(r.key, Daily, r.est).IncrTracker(r.key, Monthly, r.est)
  {
    hide Drive;
    DriveOne(sh, r, AllOk());
    AdmittedFromColdCache(sh, r.(pc := LimitGet(Monthly)));
  }

  lemma TwiceInFlight(t: System, f: Request)
    requires t.reqs == [f, f] && f.pc.InFlight?
    ensures Soundness.AdmittedTotal(t) == 2.0 * f.est
  {
    SumAppend(Soundness.AdmittedShare(), [], f);
    SumAppend(Soundness.AdmittedShare(), [f], f);
    assert t.reqs == ([] + [f]) + [f];
  }

  /** One lifetime matters: when the hash expires between two admissions, and every command succeeds, both may be
      admitted on the same money, for any positive balance. */
  lemma ExpiryAdmitsTwice(balance: real) returns (s: System, early: seq<Act>, late: seq<Act>)
    requires balance > 0.0
    ensures Soundness.Start(s) && |s.reqs| == 2 && s.sh.wallet == Some(balance)
    ensures Smooth(early) && Smooth(late)
    ensures
      var now := Run(s, early + [Expire] + late);
      && now.sh.cached == Some(balance)
      && now.reqs[..] == [s.reqs[0].(pc := InFlight), s.reqs[1].(pc := InFlight)]
      && Soundness.AdmittedTotal(now) == 2.0 * balance
  {
    var r := Request0("key", balance, balance);
    s := System(Empty(balance, map[]), [r, r]);
    hide Run, Drive, Alone, Move, Soundness.AdmittedTotal;
    FliesFromColdCache(s.sh, r);
    DriveIsASchedule(s, 0, AllOk());
    early := Alone(s.sh, r, 0, AllOk());
    AloneGoes(s.sh, r, 0, AllOk());
    var acts := Then(s, early, Expire);
    var t := Run(s, acts);
    FliesFromColdCache(t.sh, r);
    DriveIsASchedule(t, 1, AllOk());
    late := Alone(t.sh, r, 1, AllOk());
    AloneGoes(t.sh, r, 1, AllOk());
    RunConcat(s, acts, late);
    t := Run(s, acts + late);
    TwiceInFlight(t, r.(pc := InFlight));
  }

  lemma Extend(s: System, acts: seq<Act>, a: Act) returns (longer: seq<Act>)
    requires Faultless(s, acts) && !a.Evict? && !RedisFails(Run(s, acts), a)
    ensures longer == acts + [a] && Faultless(s, longer)
    ensures Run(s, longer) == Step(Run(s, acts), a)
  {
    longer := acts + [a];
    assert longer[..|acts|] == acts;
  }

  lemma {:induction false} FaultlessConcat(s: System, before: seq<Act>, after: seq<Act>)
    requires Faultless(s, before) && Faultless(Run(s, before), after)
    ensures Faultless(s, before + after)
  {
    hide Run, RedisFails;
    if after == [] {
      assert before + after == before;
    } else {
      var n := |after| - 1;
      FaultlessConcat(s, before, after[..n]);
      RunConcat(s, before, after[..n]);
      assert (before + after)[..|before| + n] == before + after[..n];
    }
  }

  lemma {:induction false} AloneIsFaultless(s: System, i: nat)
    requires i < |s.reqs|
    ensures Faultless(s, Alone(s.sh, s.reqs[i], i, AllOk()))
    decreases Rank(s.reqs[i].pc)
  {
    hide Alone, Move, Rank;
    var r := s.reqs[i];
    AloneIs(s.sh, r, i, AllOk());
    if !Resting(r.pc) {
      var s' := Step(s, Go(i, Ok));
      RankFalls(s.sh, r, Ok);
      RunOne(s, Go(i, Ok));
      AloneIsFaultless(s', i);
      var one := Extend(s, [], Go(i, Ok));
      assert one == [Go(i, Ok)];
      FaultlessConcat(s, [Go(i, Ok)], Alone(s'.sh, s'.reqs[i], i, AllOk()));
    }
  }

  lemma {:induction false} AtMostEverybody(s: System, acts: seq<Act>, key: string, w: Window)
    ensures Limits.AtMost(s, acts, key, w, |s.reqs|)
  {
    Soundness.RunKeepsCosts(s, acts);
    CountAtMostLength(Run(s, acts).reqs, key, w);
    if acts != [] {
      AtMostEverybody(s, acts[..|acts| - 1], key, w);
    }
  }

  lemma {:induction false} CountAtMostLength(reqs: seq<Request>, key: string, w: Window)
    ensures Sum(Limits.One(key, w), reqs) <= |reqs| as real
  {
    if reqs != [] {
      CountAtMostLength(reqs[..|reqs| - 1], key, w);
    }
  }

  // ---- The overshoot bound is tight, for every number of requests ----

  // c requests of the same estimate, the first n of them further on than the rest.
  function Row(est: real, c: nat, n: nat, front: Pc, back: Pc): seq<Request> {
    seq(c, i => Request("key", est, est, if i < n then front else back))
  }

  function Total(n: nat, est: real): real { n as real * est }

  // The window's tracker stands one estimate below the limit: absent when that is zero.
  function Crowd(c: nat, est: real, limit: real): System {
    var balance := Total(c, est);
    var trackers := if est == limit then map[] else map[("key", Daily) := limit - est];
    System(Shared(Some(balance), None, trackers, Some(balance), [], map[("key", Daily) := limit]),
           Row(est, c, 0, InFlight, LimitGet(Daily)))
  }

  lemma NextInRow(est: real, c: nat, n: nat, front: Pc, back: Pc, front': Pc)
    requires n < c
    ensures |Row(est, c, n, front, back)| == c
    ensures Row(est, c, n, front, back)[n] == Request("key", est, est, back)
    ensures Row(est, c, n, front, back)[n := Request("key", est, est, front)] == Row(est, c, n + 1, front, back)
    ensures Row(est, c, 0, front, back) == Row(est, c, 0, front', back)
    ensures Row(est, c, c, front, back) == Row(est, c, 0, front', front)
  {
  }

  // Request n passes the daily check: in one step off the tracker, or in two off the usage records.
  lemma OnePasses(c: nat, est: real, limit: real, n: nat, acts: seq<Act>) returns (longer: seq<Act>)
    requires 0.0 < est <= limit && n < c
    requires Faultless(Crowd(c, est, limit), acts)
    requires Run(Crowd(c, est, limit), acts)
             == Crowd(c, est, limit).(reqs := Row(est, c, n, LimitGet(Monthly), LimitGet(Daily)))
    ensures Faultless(Crowd(c, est, limit), longer) && (Smooth(acts) ==> Smooth(longer))
    ensures Run(Crowd(c, est, limit), longer)
            == Crowd(c, est, limit).(reqs := Row(est, c, n + 1, LimitGet(Monthly), LimitGet(Daily)))
  {
    hide Run, Faultless, Row;
    var s := Crowd(c, est, limit);
    var reqs := Row(est, c, n, LimitGet(Monthly), LimitGet(Daily));
    NextInRow(est, c, n, LimitGet(Monthly), LimitGet(Daily), InFlight);
    longer := Extend(s, acts, Go(n, Ok));
    if est == limit {
      var asked := reqs[n := reqs[n].(pc := LimitSum(Daily))];
      assert Run(s, longer) == s.(reqs := asked);
      longer := Extend(s, longer, Go(n, Ok));
      assert s.sh.Recorded("key", Daily) == 0.0;
      assert asked[n := reqs[n].(pc := LimitGet(Monthly))] == reqs[n := reqs[n].(pc := LimitGet(Monthly))];
    }
  }

  lemma {:induction false} AllPass(c: nat, est: real, limit: real, n: nat) returns (acts: seq<Act>)
    requires 0.0 < est <= limit && n <= c
    ensures Faultless(Crowd(c, est, limit), acts) && Smooth(acts)
    ensures Run(Crowd(c, est, limit), acts)
            == Crowd(c, est, limit).(reqs := Row(est, c, n, LimitGet(Monthly), LimitGet(Daily)))
  {
    if n == 0 {
      acts := [];
      assert Row(est, c, 0, InFlight, LimitGet(Daily)) == Row(est, c, 0, LimitGet(Monthly), LimitGet(Daily));
    } else {
      hide Run, Faultless, Row, Crowd;
      acts := AllPass(c, est, limit, n - 1);
      acts := OnePasses(c, est, limit, n - 1, acts);
    }
  }

  // n of the c requests admitted.
  predicate InFlightSoFar(s: System, c: nat, est: real, limit: real, n: nat) {
    && s.reqs == Row(est, c, n, InFlight, LimitGet(Monthly))
    && s.sh.limits == map[("key", Daily) := limit]
    && s.sh.cached == Some(Total(c, est))
    && s.sh.HeldAmount() == Total(n, est)
    && s.sh.Tracked("key", Daily) == limit - est + Total(n, est)
  }

  lemma OneMore(n: nat, est: real)
    ensures Total(n + 1, est) == Total(n, est) + est && Total(0, est) == 0.0
  {
  }

  lemma Fits(n: nat, c: nat, est: real)
    requires n < c && est > 0.0
    ensures Total(n, est) + est <= Total(c, est)
    decreases c - n
  {
    hide Total;
    OneMore(n, est);
    if n + 1 < c { Fits(n + 1, c, est); }
  }

  // The next one is admitted, the limit notwithstanding: it was checked before.
  lemma OneIsAdmitted(t: System, c: nat, est: real, limit: real, n: nat)
    requires est > 0.0 && n < c && InFlightSoFar(t, c, est, limit, n)
    ensures
      var (sh, r) := Drive(t.sh, t.reqs[n], AllOk());
      InFlightSoFar(System(sh, t.reqs[n := r]), c, est, limit, n + 1)
  {
    hide Drive, Row, Total;
    NextInRow(est, c, n, InFlight, LimitGet(Monthly), InFlight);
    var r := t.reqs[n];
    OneMore(n, est);
    Fits(n, c, est);
    WarmCacheSkipsSync(t.sh, r);
    AdmittedFromWarmCache(t.sh, r.(pc := PlaceHold));
    TracksOnce(t.sh.HIncrHeld(est), est);
  }

  lemma TracksOnce(sh: Shared, est: real)
    ensures
      var sh' := sh.IncrTracker("key", Daily, est).IncrTracker("key", Monthly, est);
      && sh'.Tracked("key", Daily) == sh.Tracked("key", Daily) + est
      && sh'.HeldAmount() == sh.HeldAmount() && sh'.cached == sh.cached && sh'.limits == sh.limits
  {
    assert ("key", Daily) != ("key", Monthly);
  }

  lemma {:induction false} AllAreAdmitted(c: nat, est: real, limit: real, n: nat) returns (acts: seq<Act>)
    requires 0.0 < est <= limit && n <= c
    ensures Faultless(Crowd(c, est, limit), acts) && Smooth(acts)
    ensures InFlightSoFar(Run(Crowd(c, est, limit), acts), c, est, limit, n)
  {
    var s := Crowd(c, est, limit);
    if n == 0 {
      hide Run, Faultless;
      acts := AllPass(c, est, limit, c);
      NoneIsAdmitted(c, est, limit);
    } else {
      hide Run, Faultless, Drive, Alone, Crowd, Row, Total;
      acts := AllAreAdmitted(c, est, limit, n - 1);
      var t := Run(s, acts);
      RowLength(est, c, n - 1);
      OneIsAdmitted(t, c, est, limit, n - 1);
      var more := Alone(t.sh, t.reqs[n - 1], n - 1, AllOk());
      DriveIsASchedule(t, n - 1, AllOk());
      AloneIsFaultless(t, n - 1);
      AloneGoes(t.sh, t.reqs[n - 1], n - 1, AllOk());
      RunConcat(s, acts, more);
      FaultlessConcat(s, acts, more);
      acts := acts + more;
    }
  }

  lemma RowLength(est: real, c: nat, n: nat)
    ensures |Row(est, c, n, InFlight, LimitGet(Monthly))| == c
  {
  }

  lemma NoneIsAdmitted(c: nat, est: real, limit: real)
    ensures
      var s := Crowd(c, est, limit);
      InFlightSoFar(s.(reqs := Row(est, c, c, LimitGet(Monthly), LimitGet(Daily))), c, est, limit, 0)
  {
    assert Row(est, c, c, LimitGet(Monthly), LimitGet(Daily)) == Row(est, c, 0, InFlight, LimitGet(Monthly));
  }

  lemma CrowdBegins(c: nat, est: real, limit: real)
    requires 0.0 < est <= limit
    ensures
      var s := Crowd(c, est, limit);
      && Fresh(s) && Limits.Bounded(s.reqs, "key", est) && |s.reqs| == c
      && s.sh.Limit("key", Daily) == Some(limit)
      && s.sh.Tracked("key", Daily) == limit - est && s.sh.Recorded("key", Daily) == 0.0
      && (est == limit ==> Limits.WindowBegins(s, "key", Daily))
  {
  }

  lemma OvershootIs(c: nat, est: real)
    ensures Total(c, est) - est == Limits.Overshoot(c, est)
  {
  }

  /** The overshoot bound is tight: for every number c of requests and every estimate within the limit there is
      a schedule, in a window just begun if the estimate is the limit itself, in which all c are admitted and
      the tracker ends at the limit plus c - 1 whole estimates. */
  lemma OvershootIsReached(c: nat, est: real, limit: real) returns (s: System, acts: seq<Act>)
    requires 0.0 < est <= limit && 1 <= c
    ensures Fresh(s) && Limits.Bounded(s.reqs, "key", est) && s.sh.Limit("key", Daily) == Some(limit)
    ensures s.sh.Tracked("key", Daily) <= limit && s.sh.Recorded("key", Daily) == 0.0
    ensures est == limit ==> Limits.WindowBegins(s, "key", Daily)
    ensures Faultless(s, acts) && Smooth(acts) && Limits.AtMost(s, acts, "key", Daily, c)
    ensures Limits.Kept(s, acts, "key", Daily) && Limits.Reading(s, acts, "key", Daily)
    ensures Run(s, acts).sh.Tracked("key", Daily) == limit + Limits.Overshoot(c, est)
  {
    hide Run, Faultless, Limits.AtMost, Crowd, Row, Limits.Overshoot, Total;
    s := Crowd(c, est, limit);
    acts := AllAreAdmitted(c, est, limit, c);
    CrowdBegins(c, est, limit);
    OvershootIs(c, est);
    AtMostEverybody(s, acts, "key", Daily);
    Limits.FaultlessTracks(s, acts, "key", Daily);
  }

  lemma WarmCacheSkipsSync(sh: Shared, r: Request)
    requires r.pc == LimitGet(Monthly) && sh.Limit(r.key, Monthly).None? && sh.HashExists()
    ensures Drive(sh, r, AllOk()) == Drive(sh, r.(pc := PlaceHold), AllOk())
  {
    hide Drive;
    DriveOne(sh, r, AllOk());
    DriveOne(sh, r.(pc := CacheExists), AllOk());
  }

  /** Between commit and tracker adjustment a request that cost more than its estimate leaves the tracker
      below what was spent. */
  lemma UnderestimateHidesSpend(est: real, actual: real) returns (s: System, acts: seq<Act>)
    requires 0.0 <= est < actual
    ensures s.reqs == [Request0("key", est, actual)] && Smooth(acts)
    ensures Limits.WindowBegins(s, "key", Daily) && Limits.Tracking(s, acts, "key", Daily)
    ensures Run(s, acts).sh.Tracked("key", Daily) < Run(s, acts).sh.Recorded("key", Daily)
  {
    var r := Request0("key", est, actual);
    s := System(Empty(actual, map[]), [r]);
    hide Run, Drive, Alone, Faultless, Limits.Tracking;
    DriveOne(s.sh, r, AllOk());
    AdmittedFromColdCache(s.sh, r.(pc := LimitGet(Monthly)));
    DriveIsASchedule(s, 0, AllOk());
    AloneIsFaultless(s, 0);
    acts := Alone(s.sh, r, 0, AllOk());
    AloneGoes(s.sh, r, 0, AllOk());
    acts := AnswerAndSettle(s, acts);
    Limits.FaultlessTracks(s, acts, "key", Daily);
    OneRecord(Run(s, acts).sh, actual);
  }

  lemma OneRecord(sh: Shared, actual: real)
    requires sh.records == [] + [UsageRow("key", actual, true, true)]
    ensures sh.Recorded("key", Daily) == actual
  {
    SumAppend(RowCost("key", Daily), [], UsageRow("key", actual, true, true));
  }

  // Request 0, in flight, gets its answer and commits its settlement.
  lemma AnswerAndSettle(s: System, acts: seq<Act>) returns (longer: seq<Act>)
    requires Faultless(s, acts)
    requires |Run(s, acts).reqs| > 0 && Run(s, acts).reqs[0].pc.InFlight?
    requires Run(s, acts).sh.wallet.Some? && Run(s, acts).sh.wallet.value >= Run(s, acts).reqs[0].actual
    ensures Faultless(s, longer) && (Smooth(acts) ==> Smooth(longer))
    ensures
      var was, now := Run(s, acts).sh, Run(s, longer).sh;
      var r := Run(s, acts).reqs[0];
      now.trackers == was.trackers && now.records == was.records + [UsageRow(r.key, r.actual, true, true)]
  {
    hide Run, Step;
    var t := Run(s, acts);
    SettleSteps(t);
    longer := Extend(s, acts, Go(0, Ok));
    longer := Extend(s, longer, Go(0, Ok));
  }

  lemma SettleSteps(t: System)
    requires |t.reqs| > 0 && t.reqs[0].pc.InFlight?
    requires t.sh.wallet.Some? && t.sh.wallet.value >= t.reqs[0].actual
    ensures
      var r := t.reqs[0];
      var next := Step(t, Go(0, Ok));
      var now := Step(next, Go(0, Ok)).sh;
      && now.trackers == t.sh.trackers && now.records == t.sh.records + [UsageRow(r.key, r.actual, true, true)]
  {
    assert Step(t, Go(0, Ok)) == t.(reqs := t.reqs[0 := t.reqs[0].(pc := Settle)]);
  }
}

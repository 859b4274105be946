/** An expiry that is not quiet breaks hold soundness: one more request is enough to show it. */
module HoldExpiry {
  import opened Sums
  import opened Hold
  import opened HoldSoundness
  import opened HoldLifetimes
  import opened Engine
  import opened HoldEdges

  // The state with one more request at its end.
  function Join(s: System, r: Request): System { s.(reqs := s.reqs + [r]) }

  predicate Unlimited(sh: Shared, key: string) { sh.Limit(key, Daily).None? && sh.Limit(key, Monthly).None? }

  // An expiry now loses a hold, or lets a balance into the cache that is not there any more.
  predicate Exposed(s: System, i: nat) {
    && i < |s.reqs| && !Rests(s.sh, s.reqs[i].pc)
    && (s.reqs[i].est > 0.0 || (s.reqs[i].pc.SyncSetNx? && s.reqs[i].pc.read > Balance(s.sh)))
  }

  // ---- How requests fare after the expiry ----

  // From a hash with a balance to the upstream call.
  lemma TracksAndFlies(sh: Shared, r: Request, b: real)
    requires r.pc == ReadHeld(b) && sh.HeldAmount() <= b
    ensures
      var (sh', r') := Drive(sh, r, AllOk());
      && r' == r.(pc := InFlight)
      && sh' == sh.IncrTracker(r.key, Daily, r.est).IncrTracker(r.key, Monthly, r.est)
  {
    hide Drive;
    DriveOne(sh, r, AllOk());
    Tracks(sh, r.(pc := Track(Daily)), AllOk());
  }

  lemma PassesLimits(sh: Shared, r: Request)
    requires r.pc == LimitGet(Daily) && Unlimited(sh, r.key)
    ensures Drive(sh, r, AllOk()) == Drive(sh, r.(pc := CacheExists), AllOk())
  {
    hide Drive;
    DriveOne(sh, r, AllOk());
    DriveOne(sh, r.(pc := LimitGet(Monthly)), AllOk());
  }

  // The hash with the wallet's balance, and the wallet row, there or made.
  function Synced(sh: Shared): Shared {
    sh.(wallet := Some(Balance(sh)), cached := if sh.cached.Some? then sh.cached else Some(Balance(sh)))
  }

  lemma Syncs(sh: Shared, r: Request, reason: SyncReason)
    requires r.pc == SyncSelect(reason)
    ensures Drive(sh, r, AllOk()) == Drive(Synced(sh), r.(pc := SyncDone(reason)), AllOk())
  {
    hide Drive;
    var made := sh.(wallet := Some(Balance(sh)));
    DriveOne(sh, r, AllOk());
    if sh.wallet.None? { DriveOne(sh, r.(pc := SyncCreate(reason)), AllOk()); }
    DriveOne(made, r.(pc := SyncSetNx(reason, Balance(sh))), AllOk());
    assert sh.wallet.Some? ==> made == sh;
  }

  // A new request takes all there is.
  lemma FreshFlies(sh: Shared, r: Request)
    requires r.pc == LimitGet(Daily) && Unlimited(sh, r.key)
    requires !sh.HashExists() && r.est == Balance(sh)
    ensures
      var (sh', r') := Drive(sh, r, AllOk());
      && r' == r.(pc := InFlight) && sh'.cached == Some(Balance(sh)) && sh'.HeldAmount() == r.est
      && sh'.wallet == Some(Balance(sh))
  {
    hide Drive;
    PassesLimits(sh, r);
    DriveOne(sh, r.(pc := CacheExists), AllOk());
    Syncs(sh, r.(pc := SyncSelect(Ensure)), Ensure);
    DriveOne(Synced(sh), r.(pc := PlaceHold), AllOk());
    TracksAndFlies(Synced(sh).HIncrHeld(r.est), r.(pc := ReadHeld(Balance(sh))), Balance(sh));
  }

  // It takes even more when somebody gave back a hold that had expired.
  lemma FreshFliesOnCredit(sh: Shared, r: Request, given: real)
    requires r.pc == LimitGet(Daily) && Unlimited(sh, r.key)
    requires sh.cached.None? && sh.held == Some(-given) && r.est == Balance(sh) + given
    ensures
      var (sh', r') := Drive(sh, r, AllOk());
      r' == r.(pc := InFlight) && sh'.cached == Some(Balance(sh))
  {
    hide Drive;
    var held := sh.HIncrHeld(r.est);
    PassesLimits(sh, r);
    DriveOne(sh, r.(pc := CacheExists), AllOk());
    DriveOne(sh, r.(pc := PlaceHold), AllOk());
    Syncs(held, r.(pc := SyncSelect(Resync)), Resync);
    DriveOne(Synced(held), r.(pc := Reread), AllOk());
    TracksAndFlies(Synced(held), r.(pc := ReadHeld(Balance(sh))), Balance(sh));
  }

  // A request whose hold expired while it was looking for the balance finds the new one.
  predicate Resyncing(pc: Pc) {
    pc == SyncSelect(Resync) || pc == SyncCreate(Resync) || (pc.SyncSetNx? && pc.reason.Resync?) || pc.Reread?
  }

  lemma ResyncFlies(sh: Shared, r: Request)
    requires Resyncing(r.pc) && sh.cached.Some? && sh.wallet.Some? && sh.HeldAmount() <= sh.cached.value
    ensures
      var (sh', r') := Drive(sh, r, AllOk());
      r' == r.(pc := InFlight) && sh'.cached == sh.cached
  {
    hide Drive;
    var b := sh.cached.value;
    if r.pc.SyncSelect? {
      Syncs(sh, r, Resync);
    } else if r.pc.SyncCreate? {
      DriveOne(sh, r, AllOk());
      DriveOne(sh, r.(pc := SyncSetNx(Resync, 0.0)), AllOk());
    } else if r.pc.SyncSetNx? {
      DriveOne(sh, r, AllOk());
    }
    DriveOne(sh, r.(pc := Reread), AllOk());
    TracksAndFlies(sh, r.(pc := ReadHeld(b)), b);
    assert Synced(sh) == sh;
  }

  lemma ReversesOnNothing(sh: Shared, r: Request)
    requires r.pc == Reverse && !sh.HashExists()
    ensures Drive(sh, r, AllOk()) == (sh.(held := Some(-r.est)), r.(pc := Done(Insufficient)))
  {
    hide Drive;
    DriveOne(sh, r, AllOk());
    DriveRests(sh.HIncrHeld(-r.est), r.(pc := Done(Insufficient)), AllOk());
  }

  // The stale balance is in the cache and nothing is held.
  lemma FreshFliesOnStale(sh: Shared, r: Request)
    requires r.pc == LimitGet(Daily) && Unlimited(sh, r.key)
    requires sh.cached == Some(r.est) && sh.HeldAmount() == 0.0
    ensures
      var (sh', r') := Drive(sh, r, AllOk());
      r' == r.(pc := InFlight) && sh'.wallet == sh.wallet
  {
    hide Drive;
    PassesLimits(sh, r);
    DriveOne(sh, r.(pc := CacheExists), AllOk());
    DriveOne(sh, r.(pc := PlaceHold), AllOk());
    TracksAndFlies(sh.HIncrHeld(r.est), r.(pc := ReadHeld(r.est)), r.est);
  }

  // ---- What is live in the end ----

  lemma Estimates(s: System, past: set<nat>)
    requires Sound(s, past)
    ensures forall r :: r in s.reqs ==> r.est >= 0.0
    ensures 0.0 <= Balance(s.sh)
    ensures forall i :: 0 <= i < |s.reqs| && s.reqs[i].pc.ReadHeld? ==> 0.0 <= s.reqs[i].pc.balance
  {
    var e := View(s, past);
    SumNonNegativeShares(e);
    forall i | 0 <= i < |s.reqs|
      ensures s.reqs[i].est >= 0.0 && (s.reqs[i].pc.ReadHeld? ==> 0.0 <= s.reqs[i].pc.balance)
    {
      assert i !in past ==> e.reqs[i] in e.reqs;
    }
  }

  lemma SumNonNegativeShares(e: System)
    requires Inv(e)
    ensures AdmittedTotal(e) >= 0.0
  {
    forall r | r in e.reqs
      ensures AdmittedShare()(r) >= 0.0
    {
      assert Local(e.sh, r, Ceiling(e));
    }
    SumNonNegative(AdmittedShare(), e.reqs);
  }

  lemma LiveAtLeast(reqs: seq<Request>, i: nat, r: Request)
    requires i < |reqs| && forall q :: q in reqs ==> q.est >= 0.0
    ensures Sum(LiveShare(), reqs + [r]) >= LiveShare()(reqs[i]) + LiveShare()(r)
  {
    SumAppend(LiveShare(), reqs, r);
    SumAtLeastTerm(LiveShare(), reqs, i);
  }

  // More is admitted than the cache holds, or the new request is refused at settlement.
  predicate Broken(s: System) {
    || (s.sh.cached.Some? && LiveTotal(s) > s.sh.cached.value)
    || (s.reqs != [] && s.reqs[|s.reqs| - 1].pc == ReleaseHeld(true))
  }

  lemma BrokenByTwo(now: System, reqs: seq<Request>, i: nat, r: Request, balance: real)
    requires i < |reqs| && now.reqs == reqs + [r] && forall q :: q in reqs ==> q.est >= 0.0
    requires now.sh.cached == Some(balance) && LiveShare()(reqs[i]) + LiveShare()(r) > balance
    ensures Broken(now)
  {
    LiveAtLeast(reqs, i, r);
  }

  lemma Replaced(reqs: seq<Request>, i: nat, q: Request, r: Request)
    requires i < |reqs| && (forall p :: p in reqs ==> p.est >= 0.0) && q.est >= 0.0
    ensures (reqs + [r])[i := q] == reqs[i := q] + [r]
    ensures forall p :: p in reqs[i := q] ==> p.est >= 0.0
  {
  }

  function New(key: string, est: real): Request { Request(key, est, est, LimitGet(Daily)) }

  // What is known at the expiry.
  predicate Expired(t: System, i: nat, key: string) {
    && i < |t.reqs| && !t.sh.HashExists() && Unlimited(t.sh, key) && 0.0 <= Balance(t.sh)
    && forall r :: r in t.reqs ==> r.est >= 0.0
  }

  lemma BreaksInFlight(t: System, i: nat, key: string) returns (acts: seq<Act>)
    requires Expired(t, i, key) && t.reqs[i].est > 0.0
    requires Admitted(t.reqs[i].pc) && !Spent(t.reqs[i].pc)
    ensures Broken(Run(Join(t, New(key, Balance(t.sh))), acts))
    ensures Smooth(acts)
  {
    hide Run, Drive;
    var r := New(key, Balance(t.sh));
    var s := Join(t, r);
    RunNothing(s);
    FreshFlies(t.sh, r);
    acts := ThenAlone(s, [], |t.reqs|);
    assert s.reqs[|t.reqs| := r.(pc := InFlight)] == t.reqs + [r.(pc := InFlight)];
    BrokenByTwo(Run(s, acts), t.reqs, i, r.(pc := InFlight), Balance(t.sh));
  }

  lemma BreaksResyncing(t: System, i: nat, key: string) returns (acts: seq<Act>)
    requires Expired(t, i, key) && t.reqs[i].est > 0.0 && Resyncing(t.reqs[i].pc)
    ensures Broken(Run(Join(t, New(key, Balance(t.sh))), acts))
    ensures Smooth(acts)
  {
    hide Run, Drive, Resyncing;
    var r, q := New(key, Balance(t.sh)), t.reqs[i];
    var s, f, g := Join(t, r), r.(pc := InFlight), q.(pc := InFlight);
    RunNothing(s);
    FreshFlies(t.sh, r);
    acts := ThenAlone(s, [], |t.reqs|);
    var u := Run(s, acts);
    assert s.reqs[|t.reqs| := f] == t.reqs + [f];
    ResyncFlies(u.sh, q);
    acts := ThenAlone(s, acts, i);
    assert q in t.reqs;
    Replaced(t.reqs, i, g, f);
    BrokenByTwo(Run(s, acts), t.reqs[i := g], i, f, Balance(t.sh));
  }

  lemma BreaksReading(t: System, i: nat, key: string) returns (acts: seq<Act>)
    requires Expired(t, i, key) && t.reqs[i].est > 0.0 && t.reqs[i].pc.ReadHeld? && 0.0 <= t.reqs[i].pc.balance
    ensures Broken(Run(Join(t, New(key, Balance(t.sh))), acts))
    ensures Smooth(acts)
  {
    hide Run, Drive;
    var r, q := New(key, Balance(t.sh)), t.reqs[i];
    var s, f, g := Join(t, r), r.(pc := InFlight), q.(pc := InFlight);
    RunNothing(s);
    TracksAndFlies(t.sh, q, q.pc.balance);
    acts := ThenAlone(s, [], i);
    var u := Run(s, acts);
    assert q in t.reqs;
    Replaced(t.reqs, i, g, r);
    FreshFlies(u.sh, r);
    acts := ThenAlone(s, acts, |t.reqs|);
    assert (t.reqs[i := g] + [r])[|t.reqs| := f] == t.reqs[i := g] + [f];
    BrokenByTwo(Run(s, acts), t.reqs[i := g], i, f, Balance(t.sh));
  }

  lemma BreaksReversing(t: System, i: nat, key: string) returns (acts: seq<Act>)
    requires Expired(t, i, key) && t.reqs[i].est > 0.0 && t.reqs[i].pc.Reverse?
    ensures Broken(Run(Join(t, New(key, Balance(t.sh) + t.reqs[i].est)), acts))
    ensures Smooth(acts)
  {
    hide Run, Drive;
    var q := t.reqs[i];
    var r := New(key, Balance(t.sh) + q.est);
    var s, f, g := Join(t, r), r.(pc := InFlight), q.(pc := Done(Insufficient));
    RunNothing(s);
    ReversesOnNothing(t.sh, q);
    acts := ThenAlone(s, [], i);
    var u := Run(s, acts);
    assert q in t.reqs;
    Replaced(t.reqs, i, g, r);
    FreshFliesOnCredit(u.sh, r, q.est);
    acts := ThenAlone(s, acts, |t.reqs|);
    assert (t.reqs[i := g] + [r])[|t.reqs| := f] == t.reqs[i := g] + [f];
    BrokenByTwo(Run(s, acts), t.reqs[i := g], i, f, Balance(t.sh));
  }

  lemma BreaksStale(t: System, i: nat, key: string) returns (acts: seq<Act>)
    requires Expired(t, i, key) && t.reqs[i].pc.SyncSetNx? && t.reqs[i].pc.read > Balance(t.sh)
    ensures Broken(Run(Join(t, New(key, t.reqs[i].pc.read)), acts))
    ensures Smooth(acts)
  {
    hide Run, Drive;
    var q := t.reqs[i];
    var b := q.pc.read;
    var r := New(key, b);
    var s, n := Join(t, r), |t.reqs|;
    RunNothing(s);
    acts := Then(s, [], Go(i, Ok));
    var u := Run(s, acts);
    assert u.sh == t.sh.(cached := Some(b)) && u.reqs[n] == r;
    FreshFliesOnStale(u.sh, r);
    acts := ThenAlone(s, acts, n);
    u := Run(s, acts);
    assert u.reqs[n] == r.(pc := InFlight) && u.sh.wallet == t.sh.wallet;
    acts := Then(s, acts, Go(n, Ok));
    var v := Run(s, acts);
    assert v.reqs[n] == r.(pc := Settle) && v.sh == u.sh && |v.reqs| == n + 1;
    acts := Then(s, acts, Go(n, Ok));
  }

  lemma ExpiredIs(s: System, past: set<nat>, i: nat, key: string)
    requires Sound(s, past) && i < |s.reqs| && Unlimited(s.sh, key)
    ensures Expired(Step(s, Expire), i, key) && Step(s, Expire).reqs == s.reqs
  {
    Estimates(s, past);
  }

  /** The converse, up to requests that hold nothing but zero: from every state of a sound run, an expiry while some
      request is exposed is broken by one more request, whose key has no limit, and nothing but commands that
      succeed: more is admitted than the cache holds, or settlement refuses. */
  lemma ExpiryBreaks(s: System, past: set<nat>, i: nat, key: string) returns (est: real, acts: seq<Act>)
    requires Sound(s, past) && Exposed(s, i) && Unlimited(s.sh, key)
    ensures est >= 0.0 && Broken(Run(Join(Step(s, Expire), New(key, est)), acts))
    ensures Smooth(acts)
  {
    hide Run, Sound, Broken;
    var t, q := Step(s, Expire), s.reqs[i];
    ExpiredIs(s, past, i, key);
    Estimates(s, past);
    est := Balance(t.sh);
    if q.pc.SyncSetNx? && q.pc.read > Balance(s.sh) {
      est := q.pc.read;
      acts := BreaksStale(t, i, key);
    } else if Resyncing(q.pc) {
      acts := BreaksResyncing(t, i, key);
    } else if q.pc.ReadHeld? {
      acts := BreaksReading(t, i, key);
    } else if q.pc.Reverse? {
      est := Balance(t.sh) + q.est;
      acts := BreaksReversing(t, i, key);
    } else {
      acts := BreaksInFlight(t, i, key);
    }
  }

  // ---- And a quiet one does not ----

  lemma JoinIsSound(t: System, past: set<nat>, r: Request)
    requires Sound(t, past) && r.pc == LimitGet(Daily) && r.est >= 0.0 && r.actual >= 0.0
    requires forall i :: i in past ==> i < |t.reqs|
    ensures Sound(Join(t, r), past)
  {
    var e, e' := View(t, past), View(Join(t, r), past);
    ViewShape(t, past);
    ViewShape(Join(t, r), past);
    assert e'.reqs == e.reqs + [r];
    SumAppend(HeldShare(), e.reqs, r);
    SumAppend(AdmittedShare(), e.reqs, r);
    SumAppend(ChargedShare(), e.reqs, r);
    forall q | q in e'.reqs
      ensures Local(e'.sh, q, Ceiling(e'))
    {
      if q != r { assert Local(e.sh, q, Ceiling(e)); }
    }
  }

  predicate CostsCovered(reqs: seq<Request>) { forall r :: r in reqs ==> r.actual <= r.est }

  // A sound state of n requests of which the last is not refused.
  ghost predicate Fine(s: System, past: set<nat>, n: nat) {
    && Sound(s, past) && CostsCovered(s.reqs)
    && |s.reqs| == n > 0 && s.reqs[n - 1].pc != ReleaseHeld(true)
  }

  // Without failing commands and further expiries it stays so.
  lemma {:induction false} SmoothStaysFine(s: System, past: set<nat>, acts: seq<Act>, n: nat)
    requires Fine(s, past, n) && Smooth(acts)
    ensures Fine(Run(s, acts), past, n)
  {
    if acts == [] {
      assert Run(s, acts) == s;
    } else {
      var before := acts[..|acts| - 1];
      var last := acts[|acts| - 1];
      assert last in acts;
      hide Run, Fine, Step, Move;
      SmoothStaysFine(s, past, before, n);
      SmoothStep(Run(s, before), past, last, n);
      RunMore(s, before, last);
      assert acts == before + [last];
    }
  }

  lemma SmoothStep(s: System, past: set<nat>, a: Act, n: nat)
    requires Fine(s, past, n) && a.Go? && a.fate.Ok?
    ensures Fine(Step(s, a), past, n)
  {
    hide Sound;
    if a.who < |s.reqs| {
      GoKeepsSound(s, past, a.who, a.fate);
      assert s.reqs[a.who] in s.reqs;
      if s.reqs[a.who].pc.Settle? { SoundCovers(s, past, a.who); }
      OnlySettleRefuses(s.sh, s.reqs[a.who], a.fate);
    }
  }

  lemma OnlySettleRefuses(sh: Shared, r: Request, fate: Fate)
    requires r.pc.Settle? ==> sh.wallet.Some? && r.actual <= sh.wallet.value
    ensures Move(sh, r, fate).1 == ReleaseHeld(true) ==> r.pc == ReleaseHeld(true)
  {
  }

  lemma QuietHolds(s: System, past: set<nat>, key: string, est: real, acts: seq<Act>)
    requires Sound(s, past) && Quiet(s) && CostsCovered(s.reqs) && est >= 0.0 && Smooth(acts)
    ensures !Broken(Run(Join(Step(s, Expire), New(key, est)), acts))
  {
    hide Run, Sound, Quiet, LiveTotal;
    var t, r := Step(s, Expire), New(key, est);
    ExpiryKeepsSound(s, past);
    JoinIsSound(t, AllSpent(s), r);
    SmoothStaysFine(Join(t, r), AllSpent(s), acts, |s.reqs| + 1);
    SoundFits(Run(Join(t, r), acts), AllSpent(s));
  }

  /** The exact condition on an expiry, in any state of a sound run in which costs stay within estimates and nobody
      holds just zero: whatever request comes next, and however commands that succeed are interleaved after it,
      all estimates in flight fit the cache and that request is not refused, if and only if the state is quiet. */
  lemma ExpiryIsSafeIff(s: System, past: set<nat>, key: string)
    requires Sound(s, past) && CostsCovered(s.reqs) && Unlimited(s.sh, key)
    requires forall i :: 0 <= i < |s.reqs| ==> Rests(s.sh, s.reqs[i].pc) || Exposed(s, i)
    ensures (forall est: real, acts: seq<Act> :: est >= 0.0 && Smooth(acts) ==>
               !Broken(Run(Join(Step(s, Expire), New(key, est)), acts)))
            <==> Quiet(s)
  {
    hide Run, Sound, Broken, Smooth, Join, New, Step, CostsCovered;
    if Quiet(s) {
      forall est: real, acts: seq<Act> | est >= 0.0 && Smooth(acts)
        ensures !Broken(Run(Join(Step(s, Expire), New(key, est)), acts))
      {
        QuietHolds(s, past, key, est, acts);
      }
    } else {
      var r :| r in s.reqs && !Rests(s.sh, r.pc);
      var i :| 0 <= i < |s.reqs| && s.reqs[i] == r;
      var est, acts := ExpiryBreaks(s, past, i, key);
    }
  }
}

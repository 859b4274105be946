/** The billing engine's methods, run without interruption, against the step machine of module Hold. */
module Engine {
  import opened Sums
  import opened Hold

  // Where a method of the engine returns to its caller.
  predicate Resting(pc: Pc) { pc.InFlight? || pc.Done? }

  function SyncRank(pc: Pc): nat {
    match pc case SyncSelect(_) => 2 case SyncCreate(_) => 1 case _ => 0
  }

  function Rank(pc: Pc): nat {
    match pc
    case LimitGet(w) => if w.Daily? then 20 else 18
    case LimitSum(w) => if w.Daily? then 19 else 17
    case CacheExists => 16
    case SyncSelect(_) | SyncCreate(_) | SyncSetNx(_, _) =>
      SyncRank(pc) + (match pc.reason case Ensure => 13 case Resync => 9 case Settled => 27)
    case PlaceHold => 12
    case Reread => 8
    case ReadHeld(_) => 7
    case Reverse => 6
    case Track(w) => if w.Daily? then 5 else 4
    case Settle => 30
    case Adjust(w) => if w.Daily? then 26 else 25
    case ReleaseHeld(_) => 24
    case ReleaseTrack(w) => if w.Daily? then 23 else 22
    case InFlight | Done(_) => 0
  }

  lemma RankFalls(sh: Shared, r: Request, fate: Fate)
    requires !Resting(r.pc)
    ensures Rank(Move(sh, r, fate).1) < Rank(r.pc)
  {
  }

  // The request's commands issued one after the other until the method returns; `fate` says how each ends.
  function Drive(sh: Shared, r: Request, fate: Pc -> Fate): (Shared, Request)
    decreases Rank(r.pc)
  {
    if Resting(r.pc) then (sh, r)
    else
      RankFalls(sh, r, fate(r.pc));
      var (sh', pc) := Move(sh, r, fate(r.pc));
      Drive(sh', r.(pc := pc), fate)
  }

  lemma DriveOne(sh: Shared, r: Request, fate: Pc -> Fate)
    requires !Resting(r.pc)
    ensures
      var (sh', pc) := Move(sh, r, fate(r.pc));
      Drive(sh, r, fate) == Drive(sh', r.(pc := pc), fate)
  {
  }

  lemma DriveRests(sh: Shared, r: Request, fate: Pc -> Fate)
    requires Resting(r.pc)
    ensures Drive(sh, r, fate) == (sh, r)
  {
  }

  // The commands of ReleaseHold.
  lemma MoveReleases(sh: Shared, r: Request, fate: Fate)
    ensures r.pc.ReleaseHeld? ==>
      Move(sh, r, fate) == (if fate.Ok? then sh.HIncrHeld(-r.est) else sh,
                            if r.key == "" then Done(Untracked) else ReleaseTrack(Daily))
    ensures r.pc.ReleaseTrack? ==>
      Move(sh, r, fate) == (if fate.Ok? then sh.IncrTracker(r.key, r.pc.window, -r.est) else sh,
                            if r.pc.window.Daily? then ReleaseTrack(Monthly) else Done(Released))
  {
  }

  // A schedule in which only request i moves, from where it is until it rests.
  function Alone(sh: Shared, r: Request, i: nat, fate: Pc -> Fate): seq<Act>
    decreases Rank(r.pc)
  {
    if Resting(r.pc) then []
    else
      RankFalls(sh, r, fate(r.pc));
      var (sh', pc) := Move(sh, r, fate(r.pc));
      [Go(i, fate(r.pc))] + Alone(sh', r.(pc := pc), i, fate)
  }

  lemma {:induction false} RunConcat(s: System, before: seq<Act>, after: seq<Act>)
    ensures Run(s, before + after) == Run(Run(s, before), after)
  {
    if after == [] {
      assert before + after == before;
    } else {
      var n := |after| - 1;
      assert (before + after)[..|before| + n] == before + after[..n];
      RunConcat(s, before, after[..n]);
    }
  }

  lemma RunNothing(s: System)
    ensures Run(s, []) == s
  {
  }

  lemma RunMore(s: System, acts: seq<Act>, a: Act)
    ensures Run(s, acts + [a]) == Step(Run(s, acts), a)
  {
    assert (acts + [a])[..|acts|] == acts;
  }

  // One more step.
  lemma Then(s: System, acts: seq<Act>, a: Act) returns (longer: seq<Act>)
    ensures longer == acts + [a] && Run(s, longer) == Step(Run(s, acts), a)
  {
    longer := acts + [a];
    RunMore(s, acts, a);
  }

  lemma RunOne(s: System, a: Act)
    ensures Run(s, [a]) == Step(s, a)
  {
    assert Run(s, [a][..0]) == s;
  }

  /** Driving a request is one particular schedule of the interleaved machine. */
  lemma {:induction false} DriveIsASchedule(s: System, i: nat, fate: Pc -> Fate)
    requires i < |s.reqs|
    ensures
      var (sh, r) := Drive(s.sh, s.reqs[i], fate);
      Run(s, Alone(s.sh, s.reqs[i], i, fate)) == System(sh, s.reqs[i := r])
    decreases Rank(s.reqs[i].pc)
  {
    hide Drive, Alone, Move, Rank;
    var r := s.reqs[i];
    AloneIs(s.sh, r, i, fate);
    if Resting(r.pc) {
      DriveRests(s.sh, r, fate);
      assert s.reqs[i := r] == s.reqs;
    } else {
      var a := Go(i, fate(r.pc));
      var s' := Step(s, a);
      DriveOne(s.sh, r, fate);
      RankFalls(s.sh, r, fate(r.pc));
      RunOne(s, a);
      RunConcat(s, [a], Alone(s'.sh, s'.reqs[i], i, fate));
      DriveIsASchedule(s', i, fate);
      var end := Drive(s.sh, r, fate).1;
      assert s'.reqs[i := end] == s.reqs[i := end];
    }
  }

  lemma AloneIs(sh: Shared, r: Request, i: nat, fate: Pc -> Fate)
    ensures
      var (sh', pc) := Move(sh, r, fate(r.pc));
      Alone(sh, r, i, fate)
      == if Resting(r.pc) then [] else [Go(i, fate(r.pc))] + Alone(sh', r.(pc := pc), i, fate)
  {
  }

  lemma {:induction false} AloneGoes(sh: Shared, r: Request, i: nat, fate: Pc -> Fate)
    ensures forall a :: a in Alone(sh, r, i, fate) ==> a.Go? && a.who == i
    ensures (forall pc :: fate(pc) == Ok || fate(pc) == Fault) ==>
      forall a :: a in Alone(sh, r, i, fate) ==> a.Go? && (a.fate == Ok || a.fate == Fault)
    ensures (forall pc :: fate(pc).Ok?) ==> Smooth(Alone(sh, r, i, fate))
    decreases Rank(r.pc)
  {
    hide Move, Alone;
    AloneIs(sh, r, i, fate);
    if !Resting(r.pc) {
      RankFalls(sh, r, fate(r.pc));
      var (sh', pc) := Move(sh, r, fate(r.pc));
      AloneGoes(sh', r.(pc := pc), i, fate);
    }
  }

  class Engine {
    var cached: Option<real>
    var held: Option<real>
    var trackers: map<(string, Window), real>
    var wallet: Option<real>
    var records: seq<UsageRow>
    const limits: map<(string, Window), real>

    function State(): Shared
      reads this
    {
      Shared(cached, held, trackers, wallet, records, limits)
    }

    constructor (limits: map<(string, Window), real>)
      ensures State() == Shared(None, None, map[], None, [], limits)
    {
      this.limits := limits;
      cached, held, trackers, wallet, records := None, None, map[], None, [];
    }

    method HIncrHeld(amount: real)
      modifies this`held
      ensures State() == old(State()).HIncrHeld(amount)
    {
      held := Some((if held.Some? then held.value else 0.0) + amount);
    }

    method IncrTracker(key: string, w: Window, amount: real)
      modifies this`trackers
      ensures State() == old(State()).IncrTracker(key, w, amount)
    {
      var before := if (key, w) in trackers then trackers[(key, w)] else 0.0;
      trackers := trackers[(key, w) := before + amount];
    }

    // getDailySpend and getMonthlySpend: the tracker, or else the sum of the usage records, or else 0.
    method GetSpend(key: string, w: Window, fate: Pc -> Fate) returns (spent: real)
      ensures fate(LimitGet(w)).Ok? && (key, w) in trackers ==> spent == State().Tracked(key, w)
      ensures !(fate(LimitGet(w)).Ok? && (key, w) in trackers) ==>
                spent == if fate(LimitSum(w)).Ok? then State().Recorded(key, w) else 0.0
    {
      if fate(LimitGet(w)).Ok? && (key, w) in trackers {
        return trackers[(key, w)];
      }
      spent := 0.0;
      if fate(LimitSum(w)).Ok? {
        spent := Sum(RowCost(key, w), records);
      }
    }

    method CheckSpendLimit(r: Request, w: Window, fate: Pc -> Fate) returns (exceeded: bool)
      requires r.pc == LimitGet(w)
      ensures Drive(State(), r, fate)
              == Drive(State(), r.(pc := if exceeded then Done(LimitExceeded) else AfterLimit(w)), fate)
    {
      exceeded := false;
      var limit := State().Limit(r.key, w);
      if limit.Some? {
        var spent := GetSpend(r.key, w, fate);
        exceeded := spent + r.est > limit.value;
        assert !(fate(LimitGet(w)).Ok? && (r.key, w) in trackers) ==>
            Drive(State(), r, fate) == Drive(State(), r.(pc := LimitSum(w)), fate);
      }
    }

    method SyncBalanceFromPostgres(reason: SyncReason, r: Request, fate: Pc -> Fate) returns (ok: bool)
      requires r.pc == SyncSelect(reason)
      modifies this`wallet, this`cached
      ensures Drive(old(State()), r, fate)
              == Drive(State(), r.(pc := if ok then SyncDone(reason) else SyncFailed(reason)), fate)
    {
      if !fate(SyncSelect(reason)).Ok? {
        return false;
      }
      var balance := 0.0;
      if wallet.Some? {
        balance := wallet.value;
      } else {
        if !fate(SyncCreate(reason)).Ok? {
          assert Drive(State(), r, fate) == Drive(State(), r.(pc := SyncCreate(reason)), fate);
          return false;
        }
        wallet := Some(0.0);
        assert Drive(old(State()), r, fate) == Drive(old(State()), r.(pc := SyncCreate(reason)), fate);
      }
      assert Drive(old(State()), r, fate) == Drive(State(), r.(pc := SyncSetNx(reason, balance)), fate);
      if fate(SyncSetNx(reason, balance)).Ok? && cached.None? {
        cached := Some(balance);
      }
      ok := true;
    }

    /** PreCheck, every error path included, does what the step machine does when nobody interferes, and
        returns in the same place: admitted (in flight) or refused for the same reason. */
    method PreCheck(r: Request, fate: Pc -> Fate) returns (end: Pc)
      requires r.pc == LimitGet(Daily)
      modifies this
      ensures (State(), r.(pc := end)) == Drive(old(State()), r, fate)
      ensures Resting(end)
    {
      var exceeded := CheckSpendLimit(r, Daily, fate);
      if exceeded { return Done(LimitExceeded); }
      exceeded := CheckSpendLimit(r.(pc := LimitGet(Monthly)), Monthly, fate);
      if exceeded { return Done(LimitExceeded); }

      // ensureBalanceCache
      if !fate(CacheExists).Ok? { return Done(Unavailable); }
      if !State().HashExists() {
        assert Drive(old(State()), r, fate) == Drive(State(), r.(pc := SyncSelect(Ensure)), fate);
        var ok := SyncBalanceFromPostgres(Ensure, r.(pc := SyncSelect(Ensure)), fate);
        if !ok { return Done(Unavailable); }
      }
      assert Drive(old(State()), r, fate) == Drive(State(), r.(pc := PlaceHold), fate);
      end := HoldAndTrack(r.(pc := PlaceHold), fate);
    }

    // The hold pipeline, the recovery from an expired hash, the availability check and the trackers.
    method HoldAndTrack(r: Request, fate: Pc -> Fate) returns (end: Pc)
      requires r.pc == PlaceHold
      modifies this
      ensures (State(), r.(pc := end)) == Drive(old(State()), r, fate)
      ensures Resting(end)
    {
      hide Drive;
      DriveOne(State(), r, fate);
      if !fate(PlaceHold).Ok? {
        end := Done(Unavailable);
        DriveRests(State(), r.(pc := end), fate);
        return;
      }
      HIncrHeld(r.est);
      if cached.None? {
        var ok := SyncBalanceFromPostgres(Resync, r.(pc := SyncSelect(Resync)), fate);
        if !ok {
          end := Done(HoldStranded);
          DriveRests(State(), r.(pc := end), fate);
          return;
        }
        DriveOne(State(), r.(pc := Reread), fate);
        if !fate(Reread).Ok? || cached.None? {
          end := Done(HoldStranded);
          DriveRests(State(), r.(pc := end), fate);
          return;
        }
      }
      var balance := cached.value;
      DriveOne(State(), r.(pc := ReadHeld(balance)), fate);
      var taken := if fate(ReadHeld(balance)).Ok? && held.Some? then held.value else 0.0;
      if balance - taken < 0.0 {
        end := ReverseHold(r.(pc := Reverse), fate);
        return;
      }
      end := TrackEstimate(r.(pc := Track(Daily)), fate);
    }

    method TrackEstimate(r: Request, fate: Pc -> Fate) returns (end: Pc)
      requires r.pc == Track(Daily)
      modifies this`trackers
      ensures (State(), r.(pc := end)) == Drive(old(State()), r, fate)
      ensures Resting(end)
    {
      hide Drive;
      DriveOne(State(), r, fate);
      if fate(Track(Daily)).Ok? { IncrTracker(r.key, Daily, r.est); }
      DriveOne(State(), r.(pc := Track(Monthly)), fate);
      if fate(Track(Monthly)).Ok? { IncrTracker(r.key, Monthly, r.est); }
      end := InFlight;
      DriveRests(State(), r.(pc := end), fate);
    }

    // Insufficient balance: take the hold back. If that fails too, it stays.
    method ReverseHold(r: Request, fate: Pc -> Fate) returns (end: Pc)
      requires r.pc == Reverse
      modifies this`held
      ensures (State(), r.(pc := end)) == Drive(old(State()), r, fate)
      ensures Resting(end)
    {
      if fate(Reverse).Ok? {
        HIncrHeld(-r.est);
        end := Done(Insufficient);
      } else {
        end := Done(HoldStranded);
      }
    }

    /** ReleaseHold undoes the hold and both trackers, unless the key id is empty. */
    method ReleaseHold(r: Request, fate: Pc -> Fate) returns (end: Pc)
      requires r.pc.ReleaseHeld?
      modifies this`held, this`trackers
      ensures (State(), r.(pc := end)) == Drive(old(State()), r, fate)
      ensures Resting(end)
    {
      hide Drive, Move;
      DriveOne(State(), r, fate);
      MoveReleases(State(), r, fate(r.pc));
      if fate(r.pc).Ok? { HIncrHeld(-r.est); }
      if r.key == "" {
        end := Done(Untracked);
        DriveRests(State(), r.(pc := end), fate);
        return;
      }
      DriveOne(State(), r.(pc := ReleaseTrack(Daily)), fate);
      MoveReleases(State(), r.(pc := ReleaseTrack(Daily)), fate(ReleaseTrack(Daily)));
      if fate(ReleaseTrack(Daily)).Ok? { IncrTracker(r.key, Daily, -r.est); }
      DriveOne(State(), r.(pc := ReleaseTrack(Monthly)), fate);
      MoveReleases(State(), r.(pc := ReleaseTrack(Monthly)), fate(ReleaseTrack(Monthly)));
      if fate(ReleaseTrack(Monthly)).Ok? { IncrTracker(r.key, Monthly, -r.est); }
      end := Done(Released);
      DriveRests(State(), r.(pc := end), fate);
    }

    /** FinalizeDeduction: the transaction, then the refused, lost or committed continuation. */
    method FinalizeDeduction(r: Request, fate: Pc -> Fate) returns (end: Pc)
      requires r.pc == Settle
      modifies this
      ensures (State(), r.(pc := end)) == Drive(old(State()), r, fate)
      ensures Resting(end)
    {
      hide Drive;
      DriveOne(State(), r, fate);
      if fate(Settle).Fault? {
        end := ReleaseHold(r.(pc := ReleaseHeld(false)), fate);
        return;
      }
      if wallet.None? || wallet.value < r.actual {
        if fate(Settle).Ok? {
          records := records + [UsageRow(r.key, 0.0, false, true)];
        }
        end := ReleaseHold(r.(pc := ReleaseHeld(true)), fate);
        return;
      }
      if !fate(Settle).Ok? {
        end := Done(Lost);
        DriveRests(State(), r.(pc := end), fate);
        return;
      }
      wallet := Some(wallet.value - r.actual);
      records := records + [UsageRow(r.key, r.actual, true, true)];
      end := AfterCommit(r.(pc := SyncSelect(Settled)), fate);
    }

    // The cache refresh (its failure is only logged) and the trackers, from estimate to actual cost.
    method AfterCommit(r: Request, fate: Pc -> Fate) returns (end: Pc)
      requires r.pc == SyncSelect(Settled)
      modifies this
      ensures (State(), r.(pc := end)) == Drive(old(State()), r, fate)
      ensures Resting(end)
    {
      hide Drive;
      var ok := SyncBalanceFromPostgres(Settled, r, fate);
      DriveOne(State(), r.(pc := Adjust(Daily)), fate);
      if fate(Adjust(Daily)).Ok? { IncrTracker(r.key, Daily, r.actual - r.est); }
      DriveOne(State(), r.(pc := Adjust(Monthly)), fate);
      if fate(Adjust(Monthly)).Ok? { IncrTracker(r.key, Monthly, r.actual - r.est); }
      end := Done(Completed);
      DriveRests(State(), r.(pc := end), fate);
    }
  }
}

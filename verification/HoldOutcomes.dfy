/** What a request comes to: the verdict of PreCheck and of the settlement as one table each, for every combination of
    failures, and what no interleaving of commands that succeed can make of a request. */
module HoldOutcomes {
  import opened Sums
  import opened Hold
  import opened HoldSoundness
  import opened Engine
  import opened HoldEdges

  // ---- The usage rows a spend limit counts ----

  // The rows of the key: of this month, or only those of today.
  function RowsOf(rows: seq<UsageRow>, key: string, w: Window): seq<UsageRow> {
    if rows == [] then []
    else
      var last := rows[|rows| - 1];
      RowsOf(rows[..|rows| - 1], key, w) + (if Matches(last, key, w) then [last] else [])
  }

  function CostOf(): UsageRow -> real { (row: UsageRow) => row.cost }

  predicate Matches(row: UsageRow, key: string, w: Window) { row.key == key && (w == Daily ==> row.today) }

  lemma RowsOfMore(before: seq<UsageRow>, last: UsageRow, key: string, w: Window)
    ensures RowsOf(before + [last], key, w) == RowsOf(before, key, w) + (if Matches(last, key, w) then [last] else [])
    ensures RowCost(key, w)(last) == if Matches(last, key, w) then last.cost else 0.0
  {
    assert (before + [last])[..|before|] == before;
  }

  lemma OneMoreRow(before: seq<UsageRow>, last: UsageRow, key: string, w: Window)
    requires Sum(RowCost(key, w), before) == Sum(CostOf(), RowsOf(before, key, w))
    ensures Sum(RowCost(key, w), before + [last]) == Sum(CostOf(), RowsOf(before + [last], key, w))
  {
    hide Sum, RowsOf, RowCost, Matches;
    var kept := RowsOf(before, key, w);
    RowsOfMore(before, last, key, w);
    SumAppend(RowCost(key, w), before, last);
    if Matches(last, key, w) {
      SumAppend(CostOf(), kept, last);
    } else {
      assert kept + [] == kept;
    }
  }

  /** Recorded spend is the plain sum over these. */
  lemma {:induction false} RecordedIsTheSum(rows: seq<UsageRow>, key: string, w: Window)
    ensures Sum(RowCost(key, w), rows) == Sum(CostOf(), RowsOf(rows, key, w))
  {
    if rows != [] {
      var before, last := rows[..|rows| - 1], rows[|rows| - 1];
      RecordedIsTheSum(before, key, w);
      hide Sum, RowsOf, RowCost;
      OneMoreRow(before, last, key, w);
      assert rows == before + [last];
    }
  }

  // ---- PreCheck ----

  // What the check of a limit takes for spent: the tracker if it can be read, else the usage rows, else nothing.
  function Seen(sh: Shared, key: string, w: Window, fate: Pc -> Fate): real {
    if fate(LimitGet(w)).Ok? && (key, w) in sh.trackers then sh.trackers[(key, w)]
    else if fate(LimitSum(w)).Ok? then Sum(CostOf(), RowsOf(sh.records, key, w))
    else 0.0
  }

  // The key has a limit for the window that is not negative, and the estimate would exceed it.
  predicate TooMuch(sh: Shared, r: Request, w: Window, fate: Pc -> Fate) {
    (r.key, w) in sh.limits && sh.limits[(r.key, w)] >= 0.0
    && sh.limits[(r.key, w)] < Seen(sh, r.key, w, fate) + r.est
  }

  predicate Cold(sh: Shared) { sh.cached.None? && sh.held.None? }

  // Postgres tells the balance, a missing wallet row being made.
  predicate Told(sh: Shared, reason: SyncReason, fate: Pc -> Fate) {
    fate(SyncSelect(reason)).Ok? && (sh.wallet.None? ==> fate(SyncCreate(reason)).Ok?)
  }

  // It tells it and Redis takes it.
  predicate Brought(sh: Shared, reason: SyncReason, fate: Pc -> Fate) {
    Told(sh, reason, fate) && fate(SyncSetNx(reason, Balance(sh))).Ok?
  }

  // After a cold start: the row is there, and the balance is cached if Redis took it.
  function Warmed(sh: Shared, fate: Pc -> Fate): Shared {
    if !Cold(sh) then sh
    else sh.(wallet := Some(Balance(sh)), cached := if Brought(sh, Ensure, fate) then Some(Balance(sh)) else None)
  }

  // The balance the hold is checked against: the cached one, or, brought in behind the hold, that of the wallet.
  function Known(sh: Shared, fate: Pc -> Fate): Option<real> {
    if sh.cached.Some? then sh.cached
    else if Brought(sh, Resync, fate) && fate(Reread).Ok? then Some(Balance(sh))
    else None
  }

  // From the hold on: admitted if the hold and those before it fit the balance, or the field cannot be read.
  function HoldVerdict(sh: Shared, r: Request, fate: Pc -> Fate): Pc {
    match Known(sh, fate)
    case None => Done(HoldStranded)
    case Some(balance) =>
      var taken := if !fate(ReadHeld(balance)).Ok? then 0.0 else if sh.held.Some? then sh.held.value + r.est else r.est;
      if taken <= balance then InFlight
      else if fate(Reverse).Ok? then Done(Insufficient)
      else Done(HoldStranded)
  }

  function Verdict(sh: Shared, r: Request, fate: Pc -> Fate): Pc {
    if TooMuch(sh, r, Daily, fate) || TooMuch(sh, r, Monthly, fate) then Done(LimitExceeded)
    else if !fate(CacheExists).Ok? || (Cold(sh) && !Told(sh, Ensure, fate)) || !fate(PlaceHold).Ok?
    then Done(Unavailable)
    else HoldVerdict(Warmed(sh, fate), r, fate)
  }

  function AmountIn(field: Option<real>): real { if field.Some? then field.value else 0.0 }

  // What PreCheck leaves in place of sh when it ends there: the hold only where the request is admitted or the hold
  // is stranded, the trackers only where it is admitted.
  ghost predicate Leaves(sh: Shared, r: Request, fate: Pc -> Fate, end: Pc, now: Shared) {
    && now.records == sh.records && now.limits == sh.limits
    && AmountIn(now.wallet) == AmountIn(sh.wallet) && (sh.wallet.Some? ==> now.wallet.Some?)
    && (now.cached == sh.cached || (sh.cached.None? && now.cached == Some(AmountIn(sh.wallet))))
    && AmountIn(now.held) == AmountIn(sh.held) + (if end in {InFlight, Done(HoldStranded)} then r.est else 0.0)
    && (end == Done(LimitExceeded) ==> now == sh)
    && forall key, w ::
         now.Tracked(key, w) - sh.Tracked(key, w)
         == if end == InFlight && key == r.key && fate(Track(w)).Ok? then r.est else 0.0
  }

  lemma LimitIs(sh: Shared, r: Request, w: Window, fate: Pc -> Fate)
    requires r.pc == LimitGet(w)
    ensures Drive(sh, r, fate)
            == if TooMuch(sh, r, w, fate) then (sh, r.(pc := Done(LimitExceeded)))
               else Drive(sh, r.(pc := AfterLimit(w)), fate)
  {
    hide Drive, Sum, RowsOf;
    RecordedIsTheSum(sh.records, r.key, w);
    DriveOne(sh, r, fate);
    DriveRests(sh, r.(pc := Done(LimitExceeded)), fate);
    if sh.Limit(r.key, w).Some? && !(fate(LimitGet(w)).Ok? && (r.key, w) in sh.trackers) {
      DriveOne(sh, r.(pc := LimitSum(w)), fate);
    }
  }

  lemma SyncIs(sh: Shared, r: Request, reason: SyncReason, fate: Pc -> Fate)
    requires r.pc == SyncSelect(reason)
    ensures
      var now := sh.(wallet := Some(Balance(sh)),
                     cached := if sh.cached.None? && Brought(sh, reason, fate) then Some(Balance(sh)) else sh.cached);
      Drive(sh, r, fate)
      == if Told(sh, reason, fate) then Drive(now, r.(pc := SyncDone(reason)), fate)
         else Drive(sh, r.(pc := SyncFailed(reason)), fate)
  {
    hide Drive;
    DriveOne(sh, r, fate);
    if fate(SyncSelect(reason)).Ok? {
      var made := sh.(wallet := Some(Balance(sh)));
      if sh.wallet.None? { DriveOne(sh, r.(pc := SyncCreate(reason)), fate); }
      if Told(sh, reason, fate) {
        assert sh.wallet.Some? ==> made == sh;
        DriveOne(made, r.(pc := SyncSetNx(reason, Balance(sh))), fate);
      }
    }
  }

  lemma WarmIs(sh: Shared, r: Request, fate: Pc -> Fate)
    requires r.pc == CacheExists
    ensures Drive(sh, r, fate)
            == if !fate(CacheExists).Ok? || (Cold(sh) && !Told(sh, Ensure, fate))
               then (sh, r.(pc := Done(Unavailable)))
               else Drive(Warmed(sh, fate), r.(pc := PlaceHold), fate)
  {
    hide Drive, Told, Brought;
    DriveOne(sh, r, fate);
    DriveRests(sh, r.(pc := Done(Unavailable)), fate);
    if fate(CacheExists).Ok? && Cold(sh) { SyncIs(sh, r.(pc := SyncSelect(Ensure)), Ensure, fate); }
  }

  lemma IncrIs(sh: Shared, key: string, w: Window, amount: real)
    ensures forall k, v ::
      sh.IncrTracker(key, w, amount).Tracked(k, v) == sh.Tracked(k, v) + if k == key && v == w then amount else 0.0
    ensures sh.IncrTracker(key, w, amount) == sh.(trackers := sh.IncrTracker(key, w, amount).trackers)
  {
  }

  lemma SameTrackers(a: Shared, b: Shared)
    requires a.trackers == b.trackers
    ensures forall k, v :: a.Tracked(k, v) == b.Tracked(k, v)
  {
  }

  lemma TracksIs(sh: Shared, r: Request, fate: Pc -> Fate)
    requires r.pc == Track(Daily)
    ensures
      var (now, r') := Drive(sh, r, fate);
      && r' == r.(pc := InFlight) && now == sh.(trackers := now.trackers)
      && forall key, w ::
           now.Tracked(key, w) - sh.Tracked(key, w) == if key == r.key && fate(Track(w)).Ok? then r.est else 0.0
  {
    hide Drive;
    DriveOne(sh, r, fate);
    var mid := if fate(Track(Daily)).Ok? then sh.IncrTracker(r.key, Daily, r.est) else sh;
    DriveOne(mid, r.(pc := Track(Monthly)), fate);
    var now := if fate(Track(Monthly)).Ok? then mid.IncrTracker(r.key, Monthly, r.est) else mid;
    DriveRests(now, r.(pc := InFlight), fate);
    IncrIs(sh, r.key, Daily, r.est);
    IncrIs(mid, r.key, Monthly, r.est);
  }

  // With the hold placed and the balance known.
  lemma CheckIs(sh: Shared, r: Request, balance: real, fate: Pc -> Fate)
    requires r.pc == ReadHeld(balance) && sh.held.Some?
    ensures
      var taken := if fate(ReadHeld(balance)).Ok? then sh.held.value else 0.0;
      Drive(sh, r, fate)
      == if taken <= balance then Drive(sh, r.(pc := Track(Daily)), fate)
         else if fate(Reverse).Ok? then (sh.(held := Some(sh.held.value - r.est)), r.(pc := Done(Insufficient)))
         else (sh, r.(pc := Done(HoldStranded)))
  {
    hide Drive;
    DriveOne(sh, r, fate);
    var taken := if fate(ReadHeld(balance)).Ok? then sh.held.value else 0.0;
    if balance < taken {
      DriveOne(sh, r.(pc := Reverse), fate);
      DriveRests(sh.HIncrHeld(-r.est), r.(pc := Done(Insufficient)), fate);
      DriveRests(sh, r.(pc := Done(HoldStranded)), fate);
    }
  }

  // The hold is placed and, if there is no balance, one is brought in.
  lemma PlacedIs(sh: Shared, r: Request, fate: Pc -> Fate)
    requires r.pc == PlaceHold && fate(PlaceHold).Ok?
    ensures
      var held := sh.(held := Some(AmountIn(sh.held) + r.est));
      var told := held.(wallet := Some(Balance(sh)),
                        cached := if Brought(sh, Resync, fate) then Some(Balance(sh)) else None);
      Drive(sh, r, fate)
      == if sh.cached.Some? then Drive(held, r.(pc := ReadHeld(sh.cached.value)), fate)
         else if Known(sh, fate).Some? then Drive(told, r.(pc := ReadHeld(Balance(sh))), fate)
         else if Told(sh, Resync, fate) then (told, r.(pc := Done(HoldStranded)))
         else (held, r.(pc := Done(HoldStranded)))
  {
    hide Drive;
    var held := sh.(held := Some(AmountIn(sh.held) + r.est));
    assert held == sh.HIncrHeld(r.est);
    DriveOne(sh, r, fate);
    if sh.cached.None? {
      SyncIs(held, r.(pc := SyncSelect(Resync)), Resync, fate);
      DriveRests(held, r.(pc := Done(HoldStranded)), fate);
      if Told(sh, Resync, fate) {
        var told := held.(wallet := Some(Balance(sh)),
                          cached := if Brought(sh, Resync, fate) then Some(Balance(sh)) else None);
        DriveOne(told, r.(pc := Reread), fate);
        DriveRests(told, r.(pc := Done(HoldStranded)), fate);
      }
    }
  }

  lemma HoldIs(sh: Shared, r: Request, fate: Pc -> Fate)
    requires r.pc == PlaceHold && fate(PlaceHold).Ok?
    ensures
      var (now, r') := Drive(sh, r, fate);
      r' == r.(pc := HoldVerdict(sh, r, fate)) && Leaves(sh, r, fate, r'.pc, now)
  {
    hide Drive, Told, Brought;
    PlacedIs(sh, r, fate);
    if Known(sh, fate).Some? {
      var balance := Known(sh, fate).value;
      var held := sh.(held := Some(AmountIn(sh.held) + r.est));
      var told := if sh.cached.Some? then held else held.(wallet := Some(Balance(sh)), cached := Some(balance));
      CheckIs(told, r.(pc := ReadHeld(balance)), balance, fate);
      TracksIs(told, r.(pc := Track(Daily)), fate);
    }
  }

  /** PreCheck as one table, for every state and every combination of failures: where it ends, and what it leaves. */
  lemma PreCheckIs(sh: Shared, r: Request, fate: Pc -> Fate)
    requires r.pc == LimitGet(Daily)
    ensures
      var (now, r') := Drive(sh, r, fate);
      r' == r.(pc := Verdict(sh, r, fate)) && Leaves(sh, r, fate, r'.pc, now)
  {
    hide Drive, TooMuch, Told, Brought, HoldVerdict, Leaves;
    LimitIs(sh, r, Daily, fate);
    LimitIs(sh, r.(pc := LimitGet(Monthly)), Monthly, fate);
    NothingLeft(sh, r, fate);
    PcIsIgnored(sh, r, fate, LimitGet(Monthly));
    if !TooMuch(sh, r, Daily, fate) && !TooMuch(sh, r, Monthly, fate) {
      WarmIs(sh, r.(pc := CacheExists), fate);
      var warm := Warmed(sh, fate);
      if fate(PlaceHold).Ok? {
        HoldIs(warm, r.(pc := PlaceHold), fate);
        PcIsIgnored(warm, r, fate, PlaceHold);
        LeavesFromWarm(sh, r, fate, HoldVerdict(warm, r, fate), Drive(warm, r.(pc := PlaceHold), fate).0);
      } else {
        DriveOne(warm, r.(pc := PlaceHold), fate);
        DriveRests(warm, r.(pc := Done(Unavailable)), fate);
      }
    }
  }

  lemma PcIsIgnored(sh: Shared, r: Request, fate: Pc -> Fate, pc: Pc)
    ensures TooMuch(sh, r.(pc := pc), Monthly, fate) <==> TooMuch(sh, r, Monthly, fate)
    ensures HoldVerdict(sh, r.(pc := pc), fate) == HoldVerdict(sh, r, fate) != Done(LimitExceeded)
    ensures forall end, now :: Leaves(sh, r.(pc := pc), fate, end, now) <==> Leaves(sh, r, fate, end, now)
  {
  }

  lemma NothingLeft(sh: Shared, r: Request, fate: Pc -> Fate)
    ensures Leaves(sh, r, fate, Done(LimitExceeded), sh) && Leaves(sh, r, fate, Done(Unavailable), sh)
    ensures Leaves(sh, r, fate, Done(Unavailable), Warmed(sh, fate))
  {
  }

  lemma LeavesFromWarm(sh: Shared, r: Request, fate: Pc -> Fate, end: Pc, now: Shared)
    requires Leaves(Warmed(sh, fate), r, fate, end, now) && end != Done(LimitExceeded)
    ensures Leaves(sh, r, fate, end, now)
  {
    assert forall key, w :: Warmed(sh, fate).Tracked(key, w) == sh.Tracked(key, w);
  }

  // The limit leaves room for the estimate: there is none, or it is negative, or it is not exceeded.
  predicate Allows(sh: Shared, r: Request, w: Window) {
    (r.key, w) in sh.limits && 0.0 <= sh.limits[(r.key, w)] ==>
      r.est + (if (r.key, w) in sh.trackers then sh.trackers[(r.key, w)]
               else Sum(CostOf(), RowsOf(sh.records, r.key, w))) <= sh.limits[(r.key, w)]
  }

  /** When every command succeeds, a request is admitted if and only if both limits allow it and its estimate fits the
      balance, cached or in Postgres, beside what is held; it is refused for a limit if and only if one does not allow
      it, and otherwise for its balance, with nothing held or tracked for it. */
  lemma AdmittedIff(sh: Shared, r: Request)
    requires r.pc == LimitGet(Daily)
    ensures
      var (now, r') := Drive(sh, r, AllOk());
      var allowed := Allows(sh, r, Daily) && Allows(sh, r, Monthly);
      var balance := if sh.cached.Some? then sh.cached.value else AmountIn(sh.wallet);
      && (r'.pc == Done(LimitExceeded) <==> !allowed)
      && (r'.pc == InFlight <==> allowed && AmountIn(sh.held) + r.est <= balance)
      && (r'.pc == Done(Insufficient) <==> allowed && balance < AmountIn(sh.held) + r.est)
      && (r'.pc != InFlight ==> AmountIn(now.held) == AmountIn(sh.held)
                                && forall key, w :: now.Tracked(key, w) == sh.Tracked(key, w))
  {
    hide Drive, Sum, RowsOf;
    PreCheckIs(sh, r, AllOk());
  }

  /** A hold that does not fit is taken back, and nothing else changes. */
  lemma RefusalGivesTheHoldBack(sh: Shared, r: Request)
    requires r.pc == PlaceHold && sh.cached.Some? && sh.cached.value < AmountIn(sh.held) + r.est
    ensures Drive(sh, r, AllOk()) == (sh.(held := Some(AmountIn(sh.held))), r.(pc := Done(Insufficient)))
  {
    hide Drive;
    PlacedIs(sh, r, AllOk());
    var held := sh.(held := Some(AmountIn(sh.held) + r.est));
    CheckIs(held, r.(pc := ReadHeld(sh.cached.value)), sh.cached.value, AllOk());
  }

  // ---- Release and settlement ----

  // What ReleaseHold leaves: the hold and both trackers are given back as far as their commands succeed; without a
  // key id the trackers stay.
  ghost predicate GivesBack(sh: Shared, r: Request, fate: Pc -> Fate, now: Shared)
    requires r.pc.ReleaseHeld?
  {
    && now == sh.(held := now.held, trackers := now.trackers)
    && AmountIn(now.held) == AmountIn(sh.held) - (if fate(r.pc).Ok? then r.est else 0.0)
    && forall key, w ::
         sh.Tracked(key, w) - now.Tracked(key, w)
         == if key == r.key != "" && fate(ReleaseTrack(w)).Ok? then r.est else 0.0
  }

  lemma TrackersAreGivenBack(sh: Shared, r: Request, fate: Pc -> Fate)
    requires r.pc == ReleaseTrack(Daily)
    ensures
      var (now, r') := Drive(sh, r, fate);
      && r' == r.(pc := Done(Released)) && now == sh.(trackers := now.trackers)
      && forall key, w ::
           sh.Tracked(key, w) - now.Tracked(key, w) == if key == r.key && fate(ReleaseTrack(w)).Ok? then r.est else 0.0
  {
    hide Drive, Move, Shared.IncrTracker, Shared.Tracked;
    DriveOne(sh, r, fate);
    MoveReleases(sh, r, fate(r.pc));
    var mid := if fate(ReleaseTrack(Daily)).Ok? then sh.IncrTracker(r.key, Daily, -r.est) else sh;
    DriveOne(mid, r.(pc := ReleaseTrack(Monthly)), fate);
    MoveReleases(mid, r.(pc := ReleaseTrack(Monthly)), fate(ReleaseTrack(Monthly)));
    var now := if fate(ReleaseTrack(Monthly)).Ok? then mid.IncrTracker(r.key, Monthly, -r.est) else mid;
    DriveRests(now, r.(pc := Done(Released)), fate);
    IncrIs(sh, r.key, Daily, -r.est);
    IncrIs(mid, r.key, Monthly, -r.est);
  }

  lemma ReleaseIs(sh: Shared, r: Request, fate: Pc -> Fate)
    requires r.pc.ReleaseHeld?
    ensures
      var (now, r') := Drive(sh, r, fate);
      r' == r.(pc := if r.key == "" then Done(Untracked) else Done(Released)) && GivesBack(sh, r, fate, now)
  {
    hide Drive, Move;
    DriveOne(sh, r, fate);
    MoveReleases(sh, r, fate(r.pc));
    var given := if fate(r.pc).Ok? then sh.HIncrHeld(-r.est) else sh;
    if r.key == "" {
      DriveRests(given, r.(pc := Done(Untracked)), fate);
    } else {
      TrackersAreGivenBack(given, r.(pc := ReleaseTrack(Daily)), fate);
    }
  }

  /** A request whose upstream call fails gives back what PreCheck has put in place: as long as every other command
      succeeds, the held amount and all trackers are what they were before the request, and nothing is recorded. */
  lemma FailedCallLeavesNothing(sh: Shared, r: Request, failure: Fate)
    requires r.pc == LimitGet(Daily) && r.key != "" && !failure.Ok?
    requires Drive(sh, r, AllOk()).1.pc == InFlight
    ensures
      var (admitted, flying) := Drive(sh, r, AllOk());
      var (failed, pc) := Move(admitted, flying, failure);
      var (now, r') := Drive(failed, flying.(pc := pc), AllOk());
      && r' == r.(pc := Done(Released))
      && AmountIn(now.held) == AmountIn(sh.held) && now.records == sh.records
      && AmountIn(now.wallet) == AmountIn(sh.wallet)
      && forall key, w :: now.Tracked(key, w) == sh.Tracked(key, w)
  {
    hide Drive, Verdict;
    PreCheckIs(sh, r, AllOk());
    var (admitted, flying) := Drive(sh, r, AllOk());
    assert Move(admitted, flying, failure).0 == admitted;
    ReleaseIs(admitted, flying.(pc := ReleaseHeld(false)), AllOk());
  }

  // What a charge leaves: the wallet pays, a row says so, the trackers go from the estimate to the cost as far as
  // their commands succeed, and a balance that was not cached may be now.
  ghost predicate Pays(sh: Shared, r: Request, fate: Pc -> Fate, now: Shared) {
    && sh.wallet.Some? && now.wallet == Some(sh.wallet.value - r.actual)
    && now.records == sh.records + [UsageRow(r.key, r.actual, true, true)]
    && now.held == sh.held && now.limits == sh.limits
    && now.cached == (if sh.cached.None? && fate(SyncSelect(Settled)).Ok?
                         && fate(SyncSetNx(Settled, sh.wallet.value - r.actual)).Ok?
                      then now.wallet else sh.cached)
    && forall key, w ::
         now.Tracked(key, w) - sh.Tracked(key, w)
         == if key == r.key && fate(Adjust(w)).Ok? then r.actual - r.est else 0.0
  }

  lemma MoveAdjusts(sh: Shared, r: Request, fate: Fate)
    requires r.pc.Adjust?
    ensures Move(sh, r, fate) == (if fate.Ok? then sh.IncrTracker(r.key, r.pc.window, r.actual - r.est) else sh,
                                  if r.pc.window.Daily? then Adjust(Monthly) else Done(Completed))
  {
  }

  lemma AdjustIs(sh: Shared, r: Request, fate: Pc -> Fate)
    requires r.pc == Adjust(Daily)
    ensures
      var (now, r') := Drive(sh, r, fate);
      && r' == r.(pc := Done(Completed)) && now == sh.(trackers := now.trackers)
      && forall key, w ::
           now.Tracked(key, w) - sh.Tracked(key, w)
           == if key == r.key && fate(Adjust(w)).Ok? then r.actual - r.est else 0.0
  {
    hide Drive, Move, Shared.IncrTracker, Shared.Tracked;
    var change := r.actual - r.est;
    DriveOne(sh, r, fate);
    MoveAdjusts(sh, r, fate(r.pc));
    var mid := if fate(Adjust(Daily)).Ok? then sh.IncrTracker(r.key, Daily, change) else sh;
    DriveOne(mid, r.(pc := Adjust(Monthly)), fate);
    MoveAdjusts(mid, r.(pc := Adjust(Monthly)), fate(Adjust(Monthly)));
    var now := if fate(Adjust(Monthly)).Ok? then mid.IncrTracker(r.key, Monthly, change) else mid;
    DriveRests(now, r.(pc := Done(Completed)), fate);
    IncrIs(sh, r.key, Daily, change);
    IncrIs(mid, r.key, Monthly, change);
  }

  lemma PaysIs(sh: Shared, r: Request, fate: Pc -> Fate)
    requires r.pc == Settle && sh.wallet.Some? && r.actual <= sh.wallet.value && fate(Settle).Ok?
    ensures
      var (now, r') := Drive(sh, r, fate);
      r' == r.(pc := Done(Completed)) && Pays(sh, r, fate, now)
  {
    hide Drive, Shared.Tracked;
    var paid := sh.(wallet := Some(sh.wallet.value - r.actual),
                    records := sh.records + [UsageRow(r.key, r.actual, true, true)]);
    DriveOne(sh, r, fate);
    SyncIs(paid, r.(pc := SyncSelect(Settled)), Settled, fate);
    var cached := if sh.cached.None? && Brought(paid, Settled, fate) then paid.wallet else sh.cached;
    var synced := if Told(paid, Settled, fate) then paid.(cached := cached) else paid;
    AdjustIs(synced, r.(pc := Adjust(Daily)), fate);
    SameTrackers(sh, synced);
  }

  /** The settlement as one table, for every state and every combination of failures. The request is charged if and only
      if the wallet covers its cost and the transaction commits, it is lost if and only if it is covered and the row or
      the commit fails, and otherwise everything is given back, with a failed row of no cost if it was refused. */
  lemma SettlementIs(sh: Shared, r: Request, fate: Pc -> Fate)
    requires r.pc == Settle
    ensures
      var (now, r') := Drive(sh, r, fate);
      var covered := sh.wallet.Some? && r.actual <= sh.wallet.value;
      if fate(Settle).Fault? then
        && r' == r.(pc := if r.key == "" then Done(Untracked) else Done(Released))
        && GivesBack(sh, r.(pc := ReleaseHeld(false)), fate, now)
      else if !covered then
        var noted := sh.(records := sh.records + if fate(Settle).Ok? then [UsageRow(r.key, 0.0, false, true)] else []);
        && r' == r.(pc := if r.key == "" then Done(Untracked) else Done(Released))
        && GivesBack(noted, r.(pc := ReleaseHeld(true)), fate, now)
      else if fate(Settle).Ok? then r' == r.(pc := Done(Completed)) && Pays(sh, r, fate, now)
      else r' == r.(pc := Done(Lost)) && now == sh
  {
    hide Drive, GivesBack, Pays;
    var covered := sh.wallet.Some? && r.actual <= sh.wallet.value;
    DriveOne(sh, r, fate);
    if fate(Settle).Fault? {
      ReleaseIs(sh, r.(pc := ReleaseHeld(false)), fate);
    } else if !covered {
      var rows := if fate(Settle).Ok? then [UsageRow(r.key, 0.0, false, true)] else [];
      assert sh.records + [] == sh.records;
      ReleaseIs(sh.(records := sh.records + rows), r.(pc := ReleaseHeld(true)), fate);
    } else if fate(Settle).Ok? {
      PaysIs(sh, r, fate);
    } else {
      DriveRests(sh, r.(pc := Done(Lost)), fate);
    }
  }

  // ---- Interleavings in which every command succeeds ----

  // Requests' commands all succeed and the hash does not expire; trackers may be lost, and top-ups arrive.
  predicate Undisturbed(acts: seq<Act>) {
    forall a :: a in acts ==> !a.Expire? && (a.Go? ==> a.fate.Ok?) && (a.Credit? ==> 0.0 <= a.amount)
  }

  // No hold is stranded, nothing is unavailable or lost, and a hold is given back only after a refusal.
  predicate Sane(sh: Shared, pc: Pc) {
    && (pc == Reread ==> sh.cached.Some?)
    && pc != ReleaseHeld(false)
    && (pc.Done? ==> pc.outcome !in {HoldStranded, Unavailable, Lost})
  }

  lemma MoveStaysSane(sh: Shared, r: Request)
    requires Sane(sh, r.pc)
    ensures Sane(Move(sh, r, Ok).0, Move(sh, r, Ok).1) && (sh.cached.Some? ==> Move(sh, r, Ok).0.cached.Some?)
  {
  }

  lemma {:induction false} EveryoneStaysSane(s: System, acts: seq<Act>)
    requires Fresh(s) && Undisturbed(acts)
    ensures forall r :: r in Run(s, acts).reqs ==> Sane(Run(s, acts).sh, r.pc)
  {
    if acts != [] {
      var before := acts[..|acts| - 1];
      var last := acts[|acts| - 1];
      var mid, now := Run(s, before), Run(s, acts);
      assert last in acts;
      EveryoneStaysSane(s, before);
      hide Run, Move, Fresh, Undisturbed;
      assert now == Step(mid, last) by { RunMore(s, before, last); assert acts == before + [last]; }
      if last.Go? && last.who < |mid.reqs| {
        assert mid.reqs[last.who] in mid.reqs;
        MoveStaysSane(mid.sh, mid.reqs[last.who]);
      }
      forall r | r in now.reqs ensures Sane(now.sh, r.pc) {
        assert r in mid.reqs || (last.Go? && last.who < |mid.reqs| && r == now.reqs[last.who]);
      }
    }
  }

  lemma UndisturbedIsALifetime(s: System, acts: seq<Act>)
    requires Undisturbed(acts)
    ensures Lifetime(s, acts)
  {
    if acts != [] {
      assert acts[|acts| - 1] in acts;
      UndisturbedIsALifetime(s, acts[..|acts| - 1]);
    }
  }

  // Nothing is given back.
  predicate Kept(pc: Pc) {
    !pc.ReleaseHeld? && !pc.ReleaseTrack? && (pc.Done? ==> pc.outcome !in {Released, Untracked})
  }

  lemma {:induction false} NothingIsGivenBack(s: System, acts: seq<Act>)
    requires Start(s) && Undisturbed(acts) && forall r :: r in s.reqs ==> r.actual <= r.est
    ensures forall r :: r in Run(s, acts).reqs ==> Kept(r.pc)
  {
    if acts != [] {
      var before := acts[..|acts| - 1];
      var last := acts[|acts| - 1];
      var mid, now := Run(s, before), Run(s, acts);
      assert last in acts;
      NothingIsGivenBack(s, before);
      UndisturbedIsALifetime(s, acts);
      NeverRefused(s, acts);
      EveryoneStaysSane(s, acts);
      hide Run, Fresh, Undisturbed, Lifetime;
      assert now == Step(mid, last) by { RunMore(s, before, last); assert acts == before + [last]; }
      forall r | r in now.reqs ensures Kept(r.pc) {
        if r !in mid.reqs {
          assert mid.reqs[last.who] in mid.reqs;
          ReleaseIsEntered(mid.sh, mid.reqs[last.who], last.fate);
          ReleaseIsSane(r.pc);
        }
      }
    }
  }

  lemma ReleaseIsEntered(sh: Shared, r: Request, fate: Fate)
    requires Kept(r.pc)
    ensures Kept(Move(sh, r, fate).1) || Move(sh, r, fate).1.ReleaseHeld?
  {
  }

  lemma ReleaseIsSane(pc: Pc)
    ensures pc.ReleaseHeld? ==> pc in {ReleaseHeld(true), ReleaseHeld(false)}
  {
  }

  lemma SaneOutcomes(sh: Shared, pc: Pc)
    requires Sane(sh, pc) && pc.Done?
    ensures pc.outcome in {LimitExceeded, Insufficient, Completed, Released, Untracked}
  {
    match pc.outcome
    case LimitExceeded | Insufficient | Completed | Released | Untracked =>
    case HoldStranded | Unavailable | Lost =>
  }

  /** Every interleaving, within one lifetime of the hash, of commands that succeed: a finished request was refused for
      a limit or for its balance, or was charged, or was refused at settlement and gave its hold back; no hold is ever
      stranded. With costs within their estimates it is one of the first three. */
  lemma OutcomesWhenAllGoesWell(s: System, acts: seq<Act>)
    requires Start(s) && Undisturbed(acts)
    ensures forall r :: r in Run(s, acts).reqs && r.pc.Done? ==>
      r.pc.outcome in {LimitExceeded, Insufficient, Completed, Released, Untracked}
    ensures (forall r :: r in s.reqs ==> r.actual <= r.est) ==>
      forall r :: r in Run(s, acts).reqs && r.pc.Done? ==> r.pc.outcome in {LimitExceeded, Insufficient, Completed}
  {
    EveryoneStaysSane(s, acts);
    hide Run, Undisturbed, Start;
    forall r | r in Run(s, acts).reqs && r.pc.Done? { SaneOutcomes(Run(s, acts).sh, r.pc); }
    if forall r :: r in s.reqs ==> r.actual <= r.est { NothingIsGivenBack(s, acts); }
  }
}

/** The credit-card-hold protocol of one user: every Redis command and every Postgres statement that a
    request issues is one atomic step, so every interleaving of any number of requests is a schedule.
 */
module Hold {
  import opened Sums

  // The two spend windows of a key, both inside the calendar window the run takes place in.
  datatype Window = Daily | Monthly

  // Why SyncBalanceFromPostgres was entered.
  datatype SyncReason = Ensure | Resync | Settled

  datatype Outcome =
    | LimitExceeded        // a spend limit refused the request
    | Unavailable          // Redis or Postgres failed before a hold was placed
    | HoldStranded         // refused after the hold was placed, and the hold stayed
    | Insufficient         // refused, hold reversed
    | Released             // failed later, everything rolled back
    | Untracked            // failed later, but the key id was empty: trackers stay
    | Completed            // charged
    | Lost                 // usage insert or commit failed: nothing rolled back

  // The command a request issues next.
  datatype Pc =
    | LimitGet(window: Window)
    | LimitSum(window: Window)
    | CacheExists
    | SyncSelect(reason: SyncReason)
    | SyncCreate(reason: SyncReason)
    | SyncSetNx(reason: SyncReason, read: real)
    | PlaceHold
    | Reread
    | ReadHeld(balance: real)
    | Reverse
    | Track(window: Window)
    | InFlight
    | Settle
    | ReleaseHeld(refused: bool)
    | ReleaseTrack(window: Window)
    | Adjust(window: Window)
    | Done(outcome: Outcome)

  // What the environment makes of a command. Only the settlement transaction tells the last two apart.
  datatype Fate = Ok | Fault | InsertFails | CommitFails

  datatype Request = Request(key: string, est: real, actual: real, pc: Pc)

  datatype UsageRow = UsageRow(key: string, cost: real, completed: bool, today: bool)

  // Redis (the balance hash and the spend trackers) and Postgres (wallet row, this month's usage rows).
  // A limit is the number scanned from the key's limit string, absent when there is none.
  datatype Shared = Shared(
    cached: Option<real>,
    held: Option<real>,
    trackers: map<(string, Window), real>,
    wallet: Option<real>,
    records: seq<UsageRow>,
    limits: map<(string, Window), real>)
  {
    predicate HashExists() { cached.Some? || held.Some? }

    // HGet on a missing field counts as 0, as does IncrByFloat on it.
    function HeldAmount(): real { if held.Some? then held.value else 0.0 }

    function Tracked(key: string, w: Window): real {
      if (key, w) in trackers then trackers[(key, w)] else 0.0
    }

    // parseLimit: a negative limit is no limit.
    function Limit(key: string, w: Window): Option<real> {
      if (key, w) in limits && limits[(key, w)] >= 0.0 then Some(limits[(key, w)]) else None
    }

    // The COALESCE(SUM(cost), 0) fallback query.
    function Recorded(key: string, w: Window): real { Sum(RowCost(key, w), records) }

    function HIncrHeld(amount: real): Shared { this.(held := Some(HeldAmount() + amount)) }

    function IncrTracker(key: string, w: Window, amount: real): Shared {
      this.(trackers := trackers[(key, w) := Tracked(key, w) + amount])
    }
  }

  function RowCost(key: string, w: Window): UsageRow -> real {
    (r: UsageRow) => if r.key == key && (w.Monthly? || r.today) then r.cost else 0.0
  }

  function AfterLimit(w: Window): Pc {
    match w case Daily => LimitGet(Monthly) case Monthly => CacheExists
  }

  function CheckLimit(spent: real, est: real, limit: real, w: Window): Pc {
    if spent + est > limit then Done(LimitExceeded) else AfterLimit(w)
  }

  function SyncFailed(reason: SyncReason): Pc {
    match reason
    case Ensure => Done(Unavailable)
    case Resync => Done(HoldStranded)
    case Settled => Adjust(Daily)
  }

  function SyncDone(reason: SyncReason): Pc {
    match reason
    case Ensure => PlaceHold
    case Resync => Reread
    case Settled => Adjust(Daily)
  }

  // The settlement transaction: UPDATE wallets, INSERT usage_records, COMMIT.
  function SettleStep(sh: Shared, r: Request, fate: Fate): (Shared, Pc) {
    if fate.Fault? then (sh, ReleaseHeld(false))
    else if sh.wallet.None? || sh.wallet.value < r.actual then
      (if fate.Ok? then sh.(records := sh.records + [UsageRow(r.key, 0.0, false, true)]) else sh, ReleaseHeld(true))
    else if !fate.Ok? then (sh, Done(Lost))
    else
      (sh.(wallet := Some(sh.wallet.value - r.actual),
           records := sh.records + [UsageRow(r.key, r.actual, true, true)]), SyncSelect(Settled))
  }

  // One command of one request.
  function Move(sh: Shared, r: Request, fate: Fate): (Shared, Pc) {
    var ok := fate.Ok?;
    match r.pc
    case LimitGet(w) =>
      var limit := sh.Limit(r.key, w);
      if limit.None? then (sh, AfterLimit(w))
      else if ok && (r.key, w) in sh.trackers then (sh, CheckLimit(sh.Tracked(r.key, w), r.est, limit.value, w))
      else (sh, LimitSum(w))
    case LimitSum(w) =>
      var limit := sh.Limit(r.key, w);
      if limit.None? then (sh, AfterLimit(w))
      else (sh, CheckLimit(if ok then sh.Recorded(r.key, w) else 0.0, r.est, limit.value, w))
    case CacheExists =>
      (sh, if !ok then Done(Unavailable) else if sh.HashExists() then PlaceHold else SyncSelect(Ensure))
    case SyncSelect(reason) =>
      (sh, if !ok then SyncFailed(reason)
           else if sh.wallet.None? then SyncCreate(reason) else SyncSetNx(reason, sh.wallet.value))
    case SyncCreate(reason) =>
      if !ok then (sh, SyncFailed(reason))
      else (if sh.wallet.None? then sh.(wallet := Some(0.0)) else sh, SyncSetNx(reason, 0.0))
    case SyncSetNx(reason, b) =>
      (if ok && sh.cached.None? then sh.(cached := Some(b)) else sh, SyncDone(reason))
    case PlaceHold =>
      if !ok then (sh, Done(Unavailable))
      else (sh.HIncrHeld(r.est), if sh.cached.Some? then ReadHeld(sh.cached.value) else SyncSelect(Resync))
    case Reread =>
      (sh, if ok && sh.cached.Some? then ReadHeld(sh.cached.value) else Done(HoldStranded))
    case ReadHeld(b) =>
      (sh, if b - (if ok then sh.HeldAmount() else 0.0) < 0.0 then Reverse else Track(Daily))
    case Reverse =>
      if ok then (sh.HIncrHeld(-r.est), Done(Insufficient)) else (sh, Done(HoldStranded))
    case Track(w) =>
      (if ok then sh.IncrTracker(r.key, w, r.est) else sh, if w.Daily? then Track(Monthly) else InFlight)
    case InFlight =>
      (sh, if ok then Settle else ReleaseHeld(false))
    case Settle =>
      SettleStep(sh, r, fate)
    case ReleaseHeld(_) =>
      (if ok then sh.HIncrHeld(-r.est) else sh, if r.key == "" then Done(Untracked) else ReleaseTrack(Daily))
    case ReleaseTrack(w) =>
      (if ok then sh.IncrTracker(r.key, w, -r.est) else sh, if w.Daily? then ReleaseTrack(Monthly) else Done(Released))
    case Adjust(w) =>
      (if ok then sh.IncrTracker(r.key, w, r.actual - r.est) else sh,
       if w.Daily? then Adjust(Monthly) else Done(Completed))
    case Done(_) => (sh, r.pc)
  }

  datatype System = System(sh: Shared, reqs: seq<Request>)

  datatype Act =
    | Go(who: nat, fate: Fate)         // request number `who` issues its next command
    | Expire                           // the 5 second TTL removes the whole balance hash
    | Evict(key: string, w: Window)    // a spend tracker is lost
    | Credit(amount: real)             // a top-up reaches the wallet

  function Step(s: System, a: Act): System {
    match a
    case Go(i, fate) =>
      if i >= |s.reqs| then s
      else
        var (sh, pc) := Move(s.sh, s.reqs[i], fate);
        System(sh, s.reqs[i := s.reqs[i].(pc := pc)])
    case Expire => s.(sh := s.sh.(cached := None, held := None))
    case Evict(key, w) => s.(sh := s.sh.(trackers := s.sh.trackers - {(key, w)}))
    case Credit(amount) =>
      s.(sh := s.sh.(wallet := Some((if s.sh.wallet.Some? then s.sh.wallet.value else 0.0) + amount)))
  }

  function Run(s: System, acts: seq<Act>): System {
    if acts == [] then s else Step(Run(s, acts[..|acts| - 1]), acts[|acts| - 1])
  }

  // A Redis command; everything else is Postgres, the upstream call, or the end.
  predicate OnRedis(pc: Pc) {
    match pc
    case LimitGet(_) | CacheExists | SyncSetNx(_, _) | PlaceHold | Reread | ReadHeld(_) | Reverse
    | Track(_) | ReleaseHeld(_) | ReleaseTrack(_) | Adjust(_) => true
    case _ => false
  }

  predicate RedisFails(s: System, a: Act) {
    a.Go? && a.who < |s.reqs| && OnRedis(s.reqs[a.who].pc) && !a.fate.Ok?
  }

  // Requests placed by clients: nothing negative, and none has issued a command yet.
  predicate Fresh(s: System) {
    forall r :: r in s.reqs ==> r.est >= 0.0 && r.actual >= 0.0 && r.pc == LimitGet(Daily)
  }

  // No failing Redis command and no lost tracker.
  predicate Faultless(s: System, acts: seq<Act>)
    decreases |acts|
  {
    acts == [] ||
    var before := acts[..|acts| - 1];
    Faultless(s, before) && !acts[|acts| - 1].Evict? && !RedisFails(Run(s, before), acts[|acts| - 1])
  }

  // No failing Redis command; trackers may be lost.
  predicate NothingFails(s: System, acts: seq<Act>)
    decreases |acts|
  {
    acts == [] ||
    var before := acts[..|acts| - 1];
    NothingFails(s, before) && !RedisFails(Run(s, before), acts[|acts| - 1])
  }

  // Commands of requests only: no expiry, no lost tracker, no top-up.
  predicate OnlyGo(acts: seq<Act>) { forall a :: a in acts ==> a.Go? }

  // And every one of them succeeds.
  predicate Smooth(acts: seq<Act>) { forall a :: a in acts ==> a.Go? && a.fate.Ok? }
}

/** Spend trackers: their accounting identity, and how far the check-then-increment limit can be overshot. */
module SpendLimit {
  import opened Sums
  import opened Hold
  import Soundness = HoldSoundness

  // A request of the key fails to issue this command.
  predicate FailsAt(s: System, a: Act, key: string, pc: Pc) {
    && a.Go? && a.who < |s.reqs| && !a.fate.Ok?
    && s.reqs[a.who].key == key && s.reqs[a.who].pc == pc
  }

  // The tracker of the key and window misses an estimate: it is lost, or an increment fails.
  predicate Misses(s: System, a: Act, key: string, w: Window) {
    a == Evict(key, w) || FailsAt(s, a, key, Track(w))
  }

  // It keeps too much: a roll back or an adjustment fails.
  predicate Overstates(s: System, a: Act, key: string, w: Window) {
    FailsAt(s, a, key, ReleaseTrack(w)) || FailsAt(s, a, key, Adjust(w))
  }

  // It is there and cannot be read, so that the usage records are asked instead.
  predicate Misread(s: System, a: Act, key: string, w: Window) {
    FailsAt(s, a, key, LimitGet(w)) && (key, w) in s.sh.trackers
  }

  // It is lost while negative, which raises it.
  predicate Raised(s: System, a: Act, key: string, w: Window) {
    a == Evict(key, w) && s.sh.Tracked(key, w) < 0.0
  }

  // Runs in which the tracker misses nothing, and those in which it is exact. All other commands of all requests
  // may fail, the balance hash may expire at any time, and top-ups may arrive.
  predicate Kept(s: System, acts: seq<Act>, key: string, w: Window)
    decreases |acts|
  {
    acts == [] ||
    var before := acts[..|acts| - 1];
    Kept(s, before, key, w) && !Misses(Run(s, before), acts[|acts| - 1], key, w)
  }

  predicate Tracking(s: System, acts: seq<Act>, key: string, w: Window)
    decreases |acts|
  {
    acts == [] ||
    var before := acts[..|acts| - 1];
    var last := acts[|acts| - 1];
    && Tracking(s, before, key, w)
    && !Misses(Run(s, before), last, key, w) && !Overstates(Run(s, before), last, key, w)
  }

  // Runs in which a tracker that is there can be read.
  predicate Reading(s: System, acts: seq<Act>, key: string, w: Window)
    decreases |acts|
  {
    acts == [] ||
    var before := acts[..|acts| - 1];
    var last := acts[|acts| - 1];
    && Reading(s, before, key, w)
    && !Misread(Run(s, before), last, key, w) && !Raised(Run(s, before), last, key, w)
  }

  // It cannot be read and would have refused: the request is turned over to the usage records.
  predicate Turned(s: System, a: Act, key: string, w: Window, limit: real) {
    && Misread(s, a, key, w)
    && limit < s.sh.Tracked(key, w) + s.reqs[a.who].est
  }

  // The requests turned over and not yet answered.
  function Waiting(s: System, acts: seq<Act>, key: string, w: Window, limit: real): set<nat> {
    if acts == [] then {}
    else
      var before := acts[..|acts| - 1];
      var last := acts[|acts| - 1];
      var waiting := Waiting(s, before, key, w, limit);
      if Turned(Run(s, before), last, key, w, limit) then waiting + {last.who}
      else if last.Go? then waiting - {last.who}
      else waiting
  }

  // The usage records let through a request that the tracker would have refused.
  predicate Slips(s: System, a: Act, waiting: set<nat>) {
    && a.Go? && a.who in waiting && a.who < |s.reqs|
    && Move(s.sh, s.reqs[a.who], a.fate).1 != Done(LimitExceeded)
  }

  // Runs in which that never happens, however often trackers cannot be read.
  predicate Guarded(s: System, acts: seq<Act>, key: string, w: Window, limit: real)
    decreases |acts|
  {
    acts == [] ||
    var before := acts[..|acts| - 1];
    var last := acts[|acts| - 1];
    && Guarded(s, before, key, w, limit)
    && !Slips(Run(s, before), last, Waiting(s, before, key, w, limit)) && !Raised(Run(s, before), last, key, w)
  }

  // Where every tracker that is there can be read, nobody is ever turned over.
  lemma {:induction false} ReadingGuards(s: System, acts: seq<Act>, key: string, w: Window, limit: real)
    requires Reading(s, acts, key, w)
    ensures Guarded(s, acts, key, w, limit) && Waiting(s, acts, key, w, limit) == {}
  {
    if acts != [] {
      hide Run, Misread, Raised;
      ReadingGuards(s, acts[..|acts| - 1], key, w, limit);
    }
  }

  lemma {:induction false} FaultlessTracks(s: System, acts: seq<Act>, key: string, w: Window)
    requires Faultless(s, acts)
    ensures Tracking(s, acts, key, w) && Kept(s, acts, key, w) && Reading(s, acts, key, w)
  {
    hide Run;
    if acts != [] { FaultlessTracks(s, acts[..|acts| - 1], key, w); }
  }

  // What one request has put on each of its key's trackers.
  function Share(r: Request, w: Window): real {
    match r.pc
    case SyncSelect(_) | SyncCreate(_) | SyncSetNx(_, _) => if r.pc.reason.Settled? then r.est else 0.0
    case Track(v) => if v.Monthly? && w.Daily? then r.est else 0.0
    case InFlight | Settle | ReleaseHeld(_) => r.est
    case ReleaseTrack(v) => if v.Monthly? && w.Daily? then 0.0 else r.est
    case Adjust(v) => if v.Monthly? && w.Daily? then r.actual else r.est
    case Done(o) => if o.Completed? then r.actual else if o.Lost? || o.Untracked? then r.est else 0.0
    case _ => 0.0
  }

  function TrackShare(key: string, w: Window): Request -> real {
    (r: Request) => if r.key == key then Share(r, w) else 0.0
  }

  // What one request has put in the usage records.
  function RecordShare(key: string): Request -> real {
    (r: Request) => if r.key == key && Soundness.Charged(r.pc) then r.actual else 0.0
  }

  // What a request's tracker entry stands above its usage record: all of the estimate while in flight or
  // lost, the refund due between commit and adjustment, nothing once completed or released.
  function Unsettled(key: string, w: Window): Request -> real {
    (r: Request) => TrackShare(key, w)(r) - RecordShare(key)(r)
  }

  lemma IncrTracks(sh: Shared, key': string, w': Window, amount: real, key: string, w: Window)
    ensures sh.IncrTracker(key', w', amount).Tracked(key, w)
            == sh.Tracked(key, w) + (if w' == w && key' == key then amount else 0.0)
  {
    assert (key', w') == (key, w) <==> w' == w && key' == key;
  }

  // A command that writes the tracker of this window.
  predicate Writes(pc: Pc, w: Window) { pc == Track(w) || pc == ReleaseTrack(w) || pc == Adjust(w) }

  lemma MoveShare(sh: Shared, r: Request, fate: Fate, key: string, w: Window)
    requires r.key == key && Writes(r.pc, w) ==> fate.Ok?
    ensures
      var (sh', pc) := Move(sh, r, fate);
      sh'.Tracked(key, w) - sh.Tracked(key, w)
      == (if r.key == key then Share(r.(pc := pc), w) - Share(r, w) else 0.0)
  {
    if OnTracker(r.pc) {
      MoveTracks(sh, r, fate, key, w);
    } else {
      hide Move, Share;
      SameTrackers(sh, r, fate);
      SameShare(sh, r, fate, w);
    }
  }

  predicate OnTracker(pc: Pc) { pc.Track? || pc.ReleaseTrack? || pc.Adjust? }

  lemma MoveTracks(sh: Shared, r: Request, fate: Fate, key: string, w: Window)
    requires OnTracker(r.pc)
    ensures
      var (sh', pc) := Move(sh, r, fate);
      sh'.Tracked(key, w) - sh.Tracked(key, w)
      == if Writes(r.pc, w) && !fate.Ok? then 0.0
         else if r.key == key then Share(r.(pc := pc), w) - Share(r, w) else 0.0
  {
    if !fate.Ok? { return; }
    match r.pc
    case Track(v) => IncrTracks(sh, r.key, v, r.est, key, w);
    case ReleaseTrack(v) => IncrTracks(sh, r.key, v, -r.est, key, w);
    case Adjust(v) => IncrTracks(sh, r.key, v, r.actual - r.est, key, w);
  }

  lemma SameTrackers(sh: Shared, r: Request, fate: Fate)
    requires !OnTracker(r.pc)
    ensures Move(sh, r, fate).0.trackers == sh.trackers
  {
  }

  lemma SameShare(sh: Shared, r: Request, fate: Fate, w: Window)
    requires !OnTracker(r.pc)
    ensures Share(r.(pc := Move(sh, r, fate).1), w) == Share(r, w)
  {
  }

  lemma MoveRecords(sh: Shared, r: Request, fate: Fate, key: string, w: Window)
    ensures
      var (sh', pc) := Move(sh, r, fate);
      && sh'.limits == sh.limits
      && sh'.Recorded(key, w) - sh.Recorded(key, w)
         == RecordShare(key)(r.(pc := pc)) - RecordShare(key)(r)
  {
    hide Move, SettleStep, Sum;
    if r.pc.Settle? {
      MoveSettles(sh, r, fate);
      SettleRecords(sh, r, fate, key, w);
    } else {
      SameRecords(sh, r, fate);
    }
  }

  lemma MoveSettles(sh: Shared, r: Request, fate: Fate)
    requires r.pc.Settle?
    ensures Move(sh, r, fate) == SettleStep(sh, r, fate)
  {
  }

  lemma SettleRecords(sh: Shared, r: Request, fate: Fate, key: string, w: Window)
    requires r.pc.Settle?
    ensures
      var (sh', pc) := SettleStep(sh, r, fate);
      && sh'.limits == sh.limits
      && sh'.Recorded(key, w) - sh.Recorded(key, w)
         == RecordShare(key)(r.(pc := pc)) - RecordShare(key)(r)
  {
    hide Sum;
    SumAppend(RowCost(key, w), sh.records, UsageRow(r.key, 0.0, false, true));
    SumAppend(RowCost(key, w), sh.records, UsageRow(r.key, r.actual, true, true));
  }

  lemma SameRecords(sh: Shared, r: Request, fate: Fate)
    requires !r.pc.Settle?
    ensures
      var (sh', pc) := Move(sh, r, fate);
      sh'.limits == sh.limits && sh'.records == sh.records && (Soundness.Charged(pc) <==> Soundness.Charged(r.pc))
  {
  }

  lemma StepTracks(s: System, a: Act, key: string, w: Window)
    requires !Misses(s, a, key, w) && !Overstates(s, a, key, w)
    ensures
      var s' := Step(s, a);
      s'.sh.Tracked(key, w) - s.sh.Tracked(key, w)
      == Sum(TrackShare(key, w), s'.reqs) - Sum(TrackShare(key, w), s.reqs)
  {
    if a.Go? && a.who < |s.reqs| {
      hide Move, Share;
      MoveShare(s.sh, s.reqs[a.who], a.fate, key, w);
      SumUpdate(TrackShare(key, w), s.reqs, a.who, Step(s, a).reqs[a.who]);
    }
  }

  lemma StepRecords(s: System, a: Act, key: string, w: Window)
    ensures
      var s' := Step(s, a);
      s'.sh.Recorded(key, w) - s.sh.Recorded(key, w)
      == Sum(RecordShare(key), s'.reqs) - Sum(RecordShare(key), s.reqs)
  {
    if a.Go? && a.who < |s.reqs| {
      hide Move;
      MoveRecords(s.sh, s.reqs[a.who], a.fate, key, w);
      SumUpdate(RecordShare(key), s.reqs, a.who, Step(s, a).reqs[a.who]);
    }
  }

  /** In every run at all the usage records hold the actual cost of every committed request. */
  lemma {:induction false} RecordIdentity(s: System, acts: seq<Act>, key: string, w: Window)
    requires Fresh(s)
    ensures Run(s, acts).sh.Recorded(key, w) == s.sh.Recorded(key, w) + Sum(RecordShare(key), Run(s, acts).reqs)
  {
    if acts == [] {
      SumZero(RecordShare(key), s.reqs);
    } else {
      hide Step;
      var before := acts[..|acts| - 1];
      RecordIdentity(s, before, key, w);
      StepRecords(Run(s, before), acts[|acts| - 1], key, w);
    }
  }

  /** The accounting identity of a tracker that is neither lost nor fails to be written: requests in flight count
      with their estimate, completed ones with their actual cost, lost ones with their estimate. */
  lemma {:induction false} TrackerIdentity(s: System, acts: seq<Act>, key: string, w: Window)
    requires Fresh(s) && Tracking(s, acts, key, w)
    ensures Run(s, acts).sh.Tracked(key, w) == s.sh.Tracked(key, w) + Sum(TrackShare(key, w), Run(s, acts).reqs)
    ensures Run(s, acts).sh.Recorded(key, w) == s.sh.Recorded(key, w) + Sum(RecordShare(key), Run(s, acts).reqs)
  {
    RecordIdentity(s, acts, key, w);
    if acts == [] {
      SumZero(TrackShare(key, w), s.reqs);
    } else {
      hide Step, Misses, Overstates;
      var before := acts[..|acts| - 1];
      TrackerIdentity(s, before, key, w);
      StepTracks(Run(s, before), acts[|acts| - 1], key, w);
    }
  }

  lemma MoveAtLeast(sh: Shared, r: Request, fate: Fate, key: string, w: Window)
    requires r.key == key && r.pc == Track(w) ==> fate.Ok?
    requires 0.0 <= r.est && (r.key == key ==> r.actual <= r.est)
    ensures
      var (sh', pc) := Move(sh, r, fate);
      sh'.Tracked(key, w) - sh.Tracked(key, w)
      >= (if r.key == key then Share(r.(pc := pc), w) - Share(r, w) else 0.0)
  {
    if OnTracker(r.pc) {
      MoveTracks(sh, r, fate, key, w);
    } else {
      hide Move, Share;
      MoveShare(sh, r, fate, key, w);
    }
  }

  lemma StepAtLeast(s: System, a: Act, key: string, w: Window)
    requires !Misses(s, a, key, w)
    requires forall r :: r in s.reqs ==> 0.0 <= r.est && (r.key == key ==> r.actual <= r.est)
    ensures
      var s' := Step(s, a);
      s'.sh.Tracked(key, w) - s.sh.Tracked(key, w)
      >= Sum(TrackShare(key, w), s'.reqs) - Sum(TrackShare(key, w), s.reqs)
  {
    if a.Go? && a.who < |s.reqs| {
      hide Move, Share;
      assert s.reqs[a.who] in s.reqs;
      MoveAtLeast(s.sh, s.reqs[a.who], a.fate, key, w);
      SumUpdate(TrackShare(key, w), s.reqs, a.who, Step(s, a).reqs[a.who]);
    }
  }

  // A request of the key costs no more than its estimate.
  predicate Estimated(reqs: seq<Request>, key: string) {
    forall r :: r in reqs && r.key == key ==> r.actual <= r.est
  }

  lemma StaysEstimated(s: System, acts: seq<Act>, key: string)
    requires Estimated(s.reqs, key)
    ensures Estimated(Run(s, acts).reqs, key)
  {
    Soundness.RunKeepsCosts(s, acts);
    forall r | r in Run(s, acts).reqs && r.key == key
      ensures r.actual <= r.est
    {
      var j :| 0 <= j < |s.reqs| && Run(s, acts).reqs[j] == r;
      assert s.reqs[j] in s.reqs;
    }
  }

  /** Failing roll backs and adjustments only leave the tracker higher, when costs stay within estimates. */
  lemma {:induction false} TrackerIsAtLeast(s: System, acts: seq<Act>, key: string, w: Window)
    requires Fresh(s) && Kept(s, acts, key, w) && Estimated(s.reqs, key)
    ensures Run(s, acts).sh.Tracked(key, w) >= s.sh.Tracked(key, w) + Sum(TrackShare(key, w), Run(s, acts).reqs)
  {
    if acts == [] {
      SumZero(TrackShare(key, w), s.reqs);
    } else {
      hide Step, Misses;
      var before := acts[..|acts| - 1];
      TrackerIsAtLeast(s, before, key, w);
      CostsArePositive(s, before);
      StaysEstimated(s, before, key);
      StepAtLeast(Run(s, before), acts[|acts| - 1], key, w);
    }
  }

  // The window has just begun for this key: no tracker, no spend.
  predicate WindowBegins(s: System, key: string, w: Window) {
    Fresh(s) && (key, w) !in s.sh.trackers && s.sh.Recorded(key, w) == 0.0
  }

  // Committed, and the tracker not yet moved from the estimate to the actual cost.
  predicate AwaitsRefund(pc: Pc, w: Window) {
    Soundness.Charged(pc) && !pc.Done? && !(pc == Adjust(Monthly) && w.Daily?)
  }

  /** The tracker stands above recorded spend by exactly the unsettled part of every request. */
  lemma TrackerAboveSpend(s: System, acts: seq<Act>, key: string, w: Window)
    requires WindowBegins(s, key, w) && Tracking(s, acts, key, w)
    ensures
      var now := Run(s, acts);
      now.sh.Tracked(key, w) == now.sh.Recorded(key, w) + Sum(Unsettled(key, w), now.reqs)
  {
    TrackerIdentity(s, acts, key, w);
    SumDifference(TrackShare(key, w), RecordShare(key), Unsettled(key, w), Run(s, acts).reqs);
  }

  lemma UnsettledIsPositive(r: Request, key: string, w: Window)
    requires r.est >= 0.0 && r.actual >= 0.0
    requires r.key == key && AwaitsRefund(r.pc, w) ==> r.actual <= r.est
    ensures Unsettled(key, w)(r) >= 0.0
  {
    assert Unsettled(key, w)(r) == TrackShare(key, w)(r) - RecordShare(key)(r);
    match r.pc
    case SyncSelect(_) =>
    case SyncCreate(_) =>
    case SyncSetNx(_, _) =>
    case Adjust(_) =>
    case Done(_) =>
    case _ => assert Share(r, w) >= 0.0 && !Soundness.Charged(r.pc);
  }

  /** Hence it never shows less than was spent, as long as no committed request that still awaits its
      refund cost more than its estimate. */
  lemma NeverBelowSpend(s: System, acts: seq<Act>, key: string, w: Window)
    requires WindowBegins(s, key, w) && Tracking(s, acts, key, w)
    requires forall r :: r in Run(s, acts).reqs && r.key == key && AwaitsRefund(r.pc, w) ==> r.actual <= r.est
    ensures Run(s, acts).sh.Tracked(key, w) >= Run(s, acts).sh.Recorded(key, w)
  {
    var now := Run(s, acts);
    TrackerAboveSpend(s, acts, key, w);
    CostsArePositive(s, acts);
    forall r | r in now.reqs
      ensures 0.0 <= Unsettled(key, w)(r)
    {
      UnsettledIsPositive(r, key, w);
    }
    SumNonNegative(Unsettled(key, w), now.reqs);
  }

  /** And with failing roll backs and adjustments too, as long as no request of the key costs more than its
      estimate. */
  lemma NeverBelowSpendEither(s: System, acts: seq<Act>, key: string, w: Window)
    requires WindowBegins(s, key, w) && Kept(s, acts, key, w) && Estimated(s.reqs, key)
    ensures Run(s, acts).sh.Tracked(key, w) >= Run(s, acts).sh.Recorded(key, w)
  {
    var now := Run(s, acts);
    TrackerIsAtLeast(s, acts, key, w);
    RecordIdentity(s, acts, key, w);
    CostsArePositive(s, acts);
    StaysEstimated(s, acts, key);
    forall r | r in now.reqs
      ensures 0.0 <= Unsettled(key, w)(r)
    {
      UnsettledIsPositive(r, key, w);
    }
    SumNonNegative(Unsettled(key, w), now.reqs);
    SumDifference(TrackShare(key, w), RecordShare(key), Unsettled(key, w), now.reqs);
  }

  lemma CostsArePositive(s: System, acts: seq<Act>)
    requires Fresh(s)
    ensures forall r :: r in Run(s, acts).reqs ==> r.est >= 0.0 && r.actual >= 0.0
  {
    Soundness.RunKeepsCosts(s, acts);
    forall r | r in Run(s, acts).reqs
      ensures r.est >= 0.0 && r.actual >= 0.0
    {
      var j :| 0 <= j < |s.reqs| && Run(s, acts).reqs[j] == r;
      assert s.reqs[j] in s.reqs;
    }
  }

  // ---- The overshoot bound ----

  // Between its read of the window's limit and its increment of the window's tracker.
  predicate Between(pc: Pc, w: Window) {
    match pc
    case LimitGet(v) => w.Daily? && v.Monthly?
    case LimitSum(v) => w.Daily? || v.Monthly?
    case CacheExists | PlaceHold | Reread | ReadHeld(_) => true
    case SyncSelect(_) | SyncCreate(_) | SyncSetNx(_, _) => !pc.reason.Settled?
    case Track(v) => w.Monthly? || v.Daily?
    case _ => false
  }

  // The estimate a request in between may still add. Until the fallback query has answered, the request
  // counts if it could pass at all.
  function Pending(key: string, w: Window, limit: real): Request -> real {
    (r: Request) =>
      if r.key == key && Between(r.pc, w) && (r.pc == LimitSum(w) ==> r.est <= limit) then r.est else 0.0
  }

  function One(key: string, w: Window): Request -> real {
    (r: Request) => if r.key == key && Between(r.pc, w) then 1.0 else 0.0
  }

  function Cap(key: string, w: Window, most: real): Request -> real {
    (r: Request) => if r.key == key && Between(r.pc, w) then most else 0.0
  }

  function Spare(key: string, w: Window, limit: real, most: real): Request -> real {
    (r: Request) => Cap(key, w, most)(r) - Pending(key, w, limit)(r)
  }

  // In every state of the run at most c requests of the key are in between.
  predicate AtMost(s: System, acts: seq<Act>, key: string, w: Window, c: nat)
    decreases |acts|
  {
    && Sum(One(key, w), Run(s, acts).reqs) <= c as real
    && (acts == [] || AtMost(s, acts[..|acts| - 1], key, w, c))
  }

  // Every estimate of the key covers the actual cost and is at most `most`.
  predicate Bounded(reqs: seq<Request>, key: string, most: real) {
    forall r :: r in reqs && r.key == key ==> 0.0 <= r.actual <= r.est <= most
  }

  lemma {:induction false} CapIsScaledCount(key: string, w: Window, most: real, reqs: seq<Request>)
    ensures Sum(Cap(key, w, most), reqs) == most * Sum(One(key, w), reqs)
  {
    if reqs != [] {
      CapIsScaledCount(key, w, most, reqs[..|reqs| - 1]);
    }
  }

  function Overshoot(c: nat, most: real): real { (c as real - 1.0) * most }

  lemma NoOvershoot(most: real)
    ensures Overshoot(1, most) == 0.0
  {
  }

  lemma Scale(most: real, n: real, c: nat)
    requires 0.0 <= most && n <= c as real
    ensures most * n - most <= Overshoot(c, most)
  {
  }

  lemma CapsAtMost(reqs: seq<Request>, key: string, w: Window, most: real, c: nat)
    requires 0.0 <= most && Sum(One(key, w), reqs) <= c as real
    ensures Sum(Cap(key, w, most), reqs) - most <= Overshoot(c, most)
  {
    CapIsScaledCount(key, w, most, reqs);
    Scale(most, Sum(One(key, w), reqs), c);
  }

  lemma SpareIsPositive(r: Request, key: string, w: Window, limit: real, most: real)
    requires r.key == key ==> 0.0 <= r.est <= most
    ensures 0.0 <= Spare(key, w, limit, most)(r)
    ensures One(key, w)(r) == 1.0 ==> Spare(key, w, limit, most)(r) == most - Pending(key, w, limit)(r)
  {
    assert Spare(key, w, limit, most)(r) == Cap(key, w, most)(r) - Pending(key, w, limit)(r);
  }

  // The others in between can add at most (c - 1) estimates.
  lemma OthersArePending(reqs: seq<Request>, i: nat, key: string, w: Window, limit: real, most: real, c: nat)
    requires Bounded(reqs, key, most) && 0.0 <= most
    requires i < |reqs| && One(key, w)(reqs[i]) == 1.0
    requires Sum(One(key, w), reqs) <= c as real
    ensures Sum(Pending(key, w, limit), reqs) <= Pending(key, w, limit)(reqs[i]) + Overshoot(c, most)
  {
    var spare := Spare(key, w, limit, most);
    CapsAtMost(reqs, key, w, most, c);
    forall r | r in reqs
      ensures 0.0 <= spare(r)
    {
      SpareIsPositive(r, key, w, limit, most);
    }
    SpareIsPositive(reqs[i], key, w, limit, most);
    SumAtLeastTerm(spare, reqs, i);
    SumDifference(Cap(key, w, most), Pending(key, w, limit), spare, reqs);
  }

  // Only the limit read can make a request pending; every other command leaves tracker plus pending
  // estimate where it was or lowers it.
  lemma MovePending(sh: Shared, r: Request, fate: Fate, key: string, w: Window, limit: real)
    requires r.key == key && r.pc == LimitGet(w) && !fate.Ok? && (key, w) in sh.trackers ==>
               sh.Tracked(key, w) + r.est <= limit
    requires sh.Limit(key, w) == Some(limit)
    requires r.key == key ==> 0.0 <= r.actual <= r.est
    ensures
      var (sh', pc) := Move(sh, r, fate);
      var r' := r.(pc := pc);
      var pending := Pending(key, w, limit);
      if r.key == key && r.pc == LimitGet(w) && Between(pc, w) then
        sh'.Tracked(key, w) + pending(r') <= limit
      else if sh.Recorded(key, w) >= 0.0 then
        sh'.Tracked(key, w) + pending(r') <= sh.Tracked(key, w) + pending(r)
      else true
  {
    var pc := Move(sh, r, fate).1;
    if r.pc.LimitGet? || r.pc.LimitSum? {
      ReadPending(sh, r, fate, key, w, limit);
    } else {
      WriteAtMost(sh, r, fate, key, w);
      hide Move, Share;
      if r.key == key { PendingCovers(sh, r, fate, key, w, limit); }
    }
  }

  // A command adds no more to the tracker than its share, or nothing.
  lemma WriteAtMost(sh: Shared, r: Request, fate: Fate, key: string, w: Window)
    ensures
      var (sh', pc) := Move(sh, r, fate);
      var share := if r.key == key then Share(r.(pc := pc), w) - Share(r, w) else 0.0;
      sh'.Tracked(key, w) - sh.Tracked(key, w) == if Writes(r.pc, w) && !fate.Ok? then 0.0 else share
  {
    if OnTracker(r.pc) {
      MoveTracks(sh, r, fate, key, w);
    } else {
      hide Move, Share;
      MoveShare(sh, r, fate, key, w);
    }
  }

  lemma ReadPending(sh: Shared, r: Request, fate: Fate, key: string, w: Window, limit: real)
    requires r.key == key && r.pc == LimitGet(w) && !fate.Ok? && (key, w) in sh.trackers ==>
               sh.Tracked(key, w) + r.est <= limit
    requires r.pc.LimitGet? || r.pc.LimitSum?
    requires sh.Limit(key, w) == Some(limit)
    requires r.key == key ==> 0.0 <= r.est
    ensures
      var (sh', pc) := Move(sh, r, fate);
      var r' := r.(pc := pc);
      var pending := Pending(key, w, limit);
      if r.key == key && r.pc == LimitGet(w) && Between(pc, w) then
        sh'.Tracked(key, w) + pending(r') <= limit
      else sh.Recorded(key, w) >= 0.0 ==>
        sh'.Tracked(key, w) + pending(r') <= sh.Tracked(key, w) + pending(r)
  {
  }

  // What a command adds to the tracker it takes from the pending estimate.
  lemma PendingCovers(sh: Shared, r: Request, fate: Fate, key: string, w: Window, limit: real)
    requires !r.pc.LimitGet? && !r.pc.LimitSum?
    requires 0.0 <= r.actual <= r.est && r.key == key
    ensures
      var pc := Move(sh, r, fate).1;
      var drop := Pending(key, w, limit)(r) - Pending(key, w, limit)(r.(pc := pc));
      Share(r.(pc := pc), w) - Share(r, w) <= drop && 0.0 <= drop
  {
  }

  lemma StepPending(s: System, a: Act, key: string, w: Window, limit: real, most: real, c: nat)
    requires !Turned(s, a, key, w, limit) && !Raised(s, a, key, w)
    requires s.sh.Limit(key, w) == Some(limit) && s.sh.Recorded(key, w) >= 0.0
    requires Bounded(s.reqs, key, most) && 0.0 <= most && 1 <= c
    requires Sum(One(key, w), Step(s, a).reqs) <= c as real
    requires s.sh.Tracked(key, w) + Sum(Pending(key, w, limit), s.reqs) <= limit + Overshoot(c, most)
    ensures
      var s' := Step(s, a);
      s'.sh.Tracked(key, w) + Sum(Pending(key, w, limit), s'.reqs) <= limit + Overshoot(c, most)
  {
    if a.Go? && a.who < |s.reqs| {
      var i := a.who;
      var s' := Step(s, a);
      var r, r' := s.reqs[i], s'.reqs[i];
      assert r in s.reqs;
      MovePending(s.sh, r, a.fate, key, w, limit);
      if r.key == key && r.pc == LimitGet(w) && Between(r'.pc, w) {
        assert Bounded(s'.reqs, key, most);
        OthersArePending(s'.reqs, i, key, w, limit, most, c);
      } else {
        SumUpdate(Pending(key, w, limit), s.reqs, i, r');
      }
    }
  }

  // The system without the requests that wait for an answer of the usage records.
  function Heeding(s: System, waiting: set<nat>): System {
    s.(reqs := seq(|s.reqs|, i requires 0 <= i < |s.reqs| =>
      if i in waiting then s.reqs[i].(pc := Done(LimitExceeded)) else s.reqs[i]))
  }

  lemma HeedingIs(s: System, waiting: set<nat>)
    ensures Heeding(s, waiting).sh == s.sh && |Heeding(s, waiting).reqs| == |s.reqs|
    ensures forall i :: 0 <= i < |s.reqs| ==>
      Heeding(s, waiting).reqs[i] == if i in waiting then s.reqs[i].(pc := Done(LimitExceeded)) else s.reqs[i]
  {
  }

  // Those who wait ask for the daily or monthly sum of their key.
  predicate AllAsk(s: System, waiting: set<nat>, w: Window) {
    forall i :: i in waiting && i < |s.reqs| ==> s.reqs[i].pc == LimitSum(w)
  }

  lemma {:induction false} WaitingAsk(s: System, acts: seq<Act>, key: string, w: Window, limit: real)
    requires s.sh.Limit(key, w).Some?
    ensures AllAsk(Run(s, acts), Waiting(s, acts, key, w, limit), w)
  {
    if acts != [] {
      var before := acts[..|acts| - 1];
      WaitingAsk(s, before, key, w, limit);
      Soundness.RunKeepsCosts(s, before);
      StepAsk(Run(s, before), acts[|acts| - 1], Waiting(s, before, key, w, limit), key, w, limit);
    }
  }

  function StillWaiting(s: System, a: Act, waiting: set<nat>, key: string, w: Window, limit: real): set<nat> {
    if Turned(s, a, key, w, limit) then waiting + {a.who} else if a.Go? then waiting - {a.who} else waiting
  }

  lemma StepAsk(s: System, a: Act, waiting: set<nat>, key: string, w: Window, limit: real)
    requires AllAsk(s, waiting, w) && s.sh.Limit(key, w).Some?
    ensures AllAsk(Step(s, a), StillWaiting(s, a, waiting, key, w, limit), w)
  {
  }

  // A request that is turned over or refused at last changes nothing; every other step is one of the system that
  // heeds the tracker.
  lemma StepHeeds(s: System, a: Act, waiting: set<nat>, key: string, w: Window, limit: real)
    requires AllAsk(s, waiting, w) && s.sh.Limit(key, w) == Some(limit) && !Slips(s, a, waiting)
    ensures
      var h, h' := Heeding(s, waiting), Heeding(Step(s, a), StillWaiting(s, a, waiting, key, w, limit));
      if a.Go? && a.who < |s.reqs| && (a.who in waiting || Turned(s, a, key, w, limit)) then
        && h'.sh == h.sh
        && (a.who in waiting ==> h'.reqs == h.reqs)
        && (a.who !in waiting ==>
              h.reqs[a.who].pc == LimitGet(w) && h'.reqs == h.reqs[a.who := h.reqs[a.who].(pc := Done(LimitExceeded))])
      else h' == Step(h, a) && !Turned(h, a, key, w, limit) && (Raised(h, a, key, w) <==> Raised(s, a, key, w))
  {
    var s' := Step(s, a);
    HeedingIs(s, waiting);
    HeedingIs(s', StillWaiting(s, a, waiting, key, w, limit));
    if a.Go? && a.who < |s.reqs| && (a.who in waiting || Turned(s, a, key, w, limit)) {
      LimitKeepsShared(s.sh, s.reqs[a.who], a.fate);
    }
  }

  lemma LimitKeepsShared(sh: Shared, r: Request, fate: Fate)
    requires r.pc.LimitGet? || r.pc.LimitSum?
    ensures Move(sh, r, fate).0 == sh
  {
  }

  // What the tracker shows plus what those who heed it may still add.
  function Exposure(s: System, waiting: set<nat>, key: string, w: Window, limit: real): real {
    s.sh.Tracked(key, w) + Sum(Pending(key, w, limit), Heeding(s, waiting).reqs)
  }

  lemma HeedingIsFewer(s: System, waiting: set<nat>, key: string, w: Window)
    ensures Sum(One(key, w), Heeding(s, waiting).reqs) <= Sum(One(key, w), s.reqs)
  {
    HeedingIs(s, waiting);
    SumBelow(One(key, w), One(key, w), Heeding(s, waiting).reqs, s.reqs);
  }

  lemma HeedingIsBounded(s: System, waiting: set<nat>, key: string, most: real)
    requires Bounded(s.reqs, key, most)
    ensures Bounded(Heeding(s, waiting).reqs, key, most)
  {
    HeedingIs(s, waiting);
    var h := Heeding(s, waiting);
    forall r | r in h.reqs && r.key == key
      ensures 0.0 <= r.actual <= r.est <= most
    {
      var i :| 0 <= i < |h.reqs| && h.reqs[i] == r;
      assert s.reqs[i] in s.reqs;
    }
  }

  lemma StepExposure(s: System, a: Act, waiting: set<nat>,
                     key: string, w: Window, limit: real, most: real, c: nat)
    requires AllAsk(s, waiting, w) && !Slips(s, a, waiting) && !Raised(s, a, key, w)
    requires s.sh.Limit(key, w) == Some(limit) && s.sh.Recorded(key, w) >= 0.0
    requires Bounded(s.reqs, key, most) && 0.0 <= most && 1 <= c
    requires Sum(One(key, w), Step(s, a).reqs) <= c as real
    requires Exposure(s, waiting, key, w, limit) <= limit + Overshoot(c, most)
    ensures Exposure(Step(s, a), StillWaiting(s, a, waiting, key, w, limit), key, w, limit)
            <= limit + Overshoot(c, most)
  {
    hide Step, Move, Turned, Slips, Raised, Overshoot, AllAsk;
    var h := Heeding(s, waiting);
    var waiting' := StillWaiting(s, a, waiting, key, w, limit);
    HeedingIs(s, waiting);
    StepHeeds(s, a, waiting, key, w, limit);
    HeedingIsFewer(Step(s, a), waiting', key, w);
    HeedingIsBounded(s, waiting, key, most);
    if a.Go? && a.who < |s.reqs| && (a.who in waiting || Turned(s, a, key, w, limit)) {
      if a.who !in waiting {
        SumUpdate(Pending(key, w, limit), h.reqs, a.who, h.reqs[a.who].(pc := Done(LimitExceeded)));
      }
      HeedingIs(Step(s, a), waiting');
    } else {
      HeedingIs(Step(s, a), waiting');
      StepPending(h, a, key, w, limit, most, c);
    }
  }

  /** Whatever fails, as long as the usage records let nobody through whom an unreadable tracker would have refused:
      with at most c requests of the key between limit read and tracker increment, the tracker plus what the
      requests in between may still add never exceeds the limit by more than (c - 1) estimates. */
  lemma {:induction false} OvershootBound(
      s: System, acts: seq<Act>, key: string, w: Window, limit: real, most: real, c: nat)
    requires Fresh(s) && Guarded(s, acts, key, w, limit) && AtMost(s, acts, key, w, c) && 1 <= c
    requires s.sh.Limit(key, w) == Some(limit) && s.sh.Recorded(key, w) >= 0.0
    requires Bounded(s.reqs, key, most) && 0.0 <= most
    requires s.sh.Tracked(key, w) <= limit
    ensures Exposure(Run(s, acts), Waiting(s, acts, key, w, limit), key, w, limit) <= limit + Overshoot(c, most)
    ensures Waiting(s, acts, key, w, limit) == {} ==>
      Run(s, acts).sh.Tracked(key, w) + Sum(Pending(key, w, limit), Run(s, acts).reqs) <= limit + Overshoot(c, most)
  {
    HeedingIs(Run(s, acts), {});
    assert Heeding(Run(s, acts), {}) == Run(s, acts);
    if acts == [] {
      SumZero(Pending(key, w, limit), s.reqs);
      OvershootIsPositive(c, most);
    } else {
      hide Step, Slips, Raised, Overshoot, Turned;
      var before := acts[..|acts| - 1];
      var mid := Run(s, before);
      OvershootBound(s, before, key, w, limit, most, c);
      RecordIdentity(s, before, key, w);
      RunStaysBounded(s, before, key, most);
      RecordsArePositive(mid.reqs, key, most);
      WaitingAsk(s, before, key, w, limit);
      StepExposure(mid, acts[|acts| - 1], Waiting(s, before, key, w, limit), key, w, limit, most, c);
    }
  }

  lemma OvershootIsPositive(c: nat, most: real)
    requires 1 <= c && 0.0 <= most
    ensures 0.0 <= Overshoot(c, most)
  {
  }

  lemma RecordsArePositive(reqs: seq<Request>, key: string, most: real)
    requires Bounded(reqs, key, most)
    ensures Sum(RecordShare(key), reqs) >= 0.0
  {
    SumNonNegative(RecordShare(key), reqs);
  }

  lemma RunStaysBounded(s: System, acts: seq<Act>, key: string, most: real)
    requires Bounded(s.reqs, key, most)
    ensures Bounded(Run(s, acts).reqs, key, most)
    ensures Run(s, acts).sh.limits == s.sh.limits
  {
    Soundness.RunKeepsCosts(s, acts);
    forall r | r in Run(s, acts).reqs && r.key == key
      ensures 0.0 <= r.actual <= r.est <= most
    {
      var j :| 0 <= j < |s.reqs| && Run(s, acts).reqs[j] == r;
      assert s.reqs[j] in s.reqs;
    }
  }

  /** What the key's owner sees: recorded spend of the window stays within the same bound, and a key used
      one request at a time never spends above its limit. */
  lemma SpendBound(s: System, acts: seq<Act>, key: string, w: Window, limit: real, most: real, c: nat)
    requires WindowBegins(s, key, w) && Kept(s, acts, key, w) && Guarded(s, acts, key, w, limit)
    requires AtMost(s, acts, key, w, c) && 1 <= c
    requires s.sh.Limit(key, w) == Some(limit)
    requires Bounded(s.reqs, key, most) && 0.0 <= most
    ensures Run(s, acts).sh.Recorded(key, w) <= limit + Overshoot(c, most)
  {
    OvershootBound(s, acts, key, w, limit, most, c);
    RunStaysBounded(s, acts, key, most);
    NeverBelowSpendEither(s, acts, key, w);
    var heeding := Heeding(Run(s, acts), Waiting(s, acts, key, w, limit));
    HeedingIsBounded(Run(s, acts), Waiting(s, acts, key, w, limit), key, most);
    SumNonNegative(Pending(key, w, limit), heeding.reqs);
  }

  /** A key whose requests are never concurrent in between never spends above its limit. */
  lemma SerialSpendBound(s: System, acts: seq<Act>, key: string, w: Window, limit: real, most: real)
    requires WindowBegins(s, key, w) && Kept(s, acts, key, w) && Guarded(s, acts, key, w, limit)
    requires AtMost(s, acts, key, w, 1)
    requires s.sh.Limit(key, w) == Some(limit)
    requires Bounded(s.reqs, key, most) && 0.0 <= most
    ensures Run(s, acts).sh.Recorded(key, w) <= limit
  {
    hide Overshoot, Kept, Guarded, AtMost, Bounded;
    SpendBound(s, acts, key, w, limit, most, 1);
    NoOvershoot(most);
  }
}

/** The failing Redis commands that the guarantees on holds and limits exclude, each with a run it breaks. */
module HoldFaults {
  import opened Sums
  import opened Hold
  import opened Engine
  import opened SpendLimit
  import opened HoldEdges
  import Soundness = HoldSoundness

  // Every command succeeds but one.
  function AllBut(failing: Pc): Pc -> Fate { (pc: Pc) => if pc == failing then Fault else Ok }

  // ---- A charge ----

  // Request i, in flight, gets its answer and commits its settlement.
  lemma Charge(s: System, acts: seq<Act>, i: nat) returns (longer: seq<Act>)
    requires
      var t := Run(s, acts);
      i < |t.reqs| && t.reqs[i].pc.InFlight? && t.sh.wallet.Some? && t.reqs[i].actual <= t.sh.wallet.value
    ensures longer == acts + [Go(i, Ok), Go(i, Ok)]
    ensures
      var t, now := Run(s, acts), Run(s, longer);
      var r := t.reqs[i];
      && now.sh == t.sh.(wallet := Some(t.sh.wallet.value - r.actual),
                         records := t.sh.records + [UsageRow(r.key, r.actual, true, true)])
      && now.reqs == t.reqs[i := r.(pc := SyncSelect(Settled))]
  {
    hide Run;
    var t := Run(s, acts);
    longer := Then(s, acts, Go(i, Ok));
    assert Run(s, longer) == t.(reqs := t.reqs[i := t.reqs[i].(pc := Settle)]);
    longer := Then(s, longer, Go(i, Ok));
    assert longer == acts + [Go(i, Ok), Go(i, Ok)];
  }

  // ---- Two requests of one key that both pass the check of its limit, one after the other ----

  // A window that has just begun, a warm balance for both, and a limit for one.
  function Pair(limit: real): System {
    var r := Request0("key", limit, limit);
    System(Shared(Some(2.0 * limit), None, map[], Some(2.0 * limit), [], map[("key", Daily) := limit]), [r, r])
  }

  // What request number n finds: nothing recorded, n holds placed.
  predicate Ready(sh: Shared, limit: real, n: nat) {
    && sh.cached == Some(2.0 * limit) && sh.wallet == Some(2.0 * limit) && sh.records == []
    && sh.limits == map[("key", Daily) := limit] && sh.HeldAmount() == n as real * limit
  }

  // The daily limit is asked of the usage records, where nothing is yet.
  lemma Passes(sh: Shared, limit: real, n: nat, fate: Pc -> Fate)
    requires limit > 0.0 && n < 2 && Ready(sh, limit, n)
    requires fate(LimitGet(Daily)).Ok? ==> ("key", Daily) !in sh.trackers
    requires forall pc :: pc != LimitGet(Daily) && pc != Track(Daily) ==> fate(pc).Ok?
    ensures
      var r := Request0("key", limit, limit);
      var (sh', r') := Drive(sh, r, fate);
      && r' == r.(pc := InFlight) && Ready(sh', limit, n + 1)
      && sh'.Tracked("key", Daily)
         == sh.Tracked("key", Daily) + (if fate(Track(Daily)).Ok? then limit else 0.0)
      && (!fate(Track(Daily)).Ok? ==> (("key", Daily) in sh'.trackers <==> ("key", Daily) in sh.trackers))
  {
    hide Drive;
    var r, b := Request0("key", limit, limit), 2.0 * limit;
    var held := sh.HIncrHeld(limit);
    var daily := if fate(Track(Daily)).Ok? then held.IncrTracker("key", Daily, limit) else held;
    NothingRecorded(sh);
    assert sh.Limit("key", Daily) == Some(limit) && sh.Limit("key", Monthly) == None;
    DriveOne(sh, r, fate);
    DriveOne(sh, r.(pc := LimitSum(Daily)), fate);
    DriveOne(sh, r.(pc := LimitGet(Monthly)), fate);
    DriveOne(sh, r.(pc := CacheExists), fate);
    PlacesHold(sh, limit, n, fate);
    DriveOne(held, r.(pc := Track(Daily)), fate);
    DriveOne(daily, r.(pc := Track(Monthly)), fate);
    DriveRests(daily.IncrTracker("key", Monthly, limit), r.(pc := InFlight), fate);
    assert ("key", Daily) != ("key", Monthly);
  }

  lemma NothingRecorded(sh: Shared)
    requires sh.records == []
    ensures sh.Recorded("key", Daily) == 0.0
  {
  }

  lemma PlacesHold(sh: Shared, limit: real, n: nat, fate: Pc -> Fate)
    requires limit > 0.0 && n < 2 && Ready(sh, limit, n)
    requires forall pc :: pc != LimitGet(Daily) && pc != Track(Daily) ==> fate(pc).Ok?
    ensures
      var r := Request0("key", limit, limit);
      && Drive(sh, r.(pc := PlaceHold), fate) == Drive(sh.HIncrHeld(limit), r.(pc := Track(Daily)), fate)
      && Ready(sh.HIncrHeld(limit), limit, n + 1)
  {
    hide Drive;
    var r, b := Request0("key", limit, limit), 2.0 * limit;
    assert (n + 1) as real * limit == n as real * limit + limit;
    assert n + 1 <= 2 && sh.HIncrHeld(limit).HeldAmount() <= b by { assert n == 0 || n == 1; }
    DriveOne(sh, r.(pc := PlaceHold), fate);
    DriveOne(sh.HIncrHeld(limit), r.(pc := ReadHeld(b)), fate);
  }

  // ---- Only one request at a time between limit read and tracker increment ----

  lemma {:induction false} OnlyOne(reqs: seq<Request>, i: nat, key: string, w: Window)
    requires forall j :: 0 <= j < |reqs| && j != i ==> One(key, w)(reqs[j]) == 0.0
    ensures Sum(One(key, w), reqs) <= 1.0
    ensures i >= |reqs| ==> Sum(One(key, w), reqs) == 0.0
  {
    if reqs != [] { OnlyOne(reqs[..|reqs| - 1], i, key, w); }
  }

  predicate Solo(acts: seq<Act>, i: nat) { forall a :: a in acts && a.Go? ==> a.who == i }

  lemma {:induction false} SoloIsSerial(s: System, before: seq<Act>, more: seq<Act>, i: nat, key: string, w: Window)
    requires AtMost(s, before, key, w, 1) && Solo(more, i)
    requires
      var reqs := Run(s, before).reqs;
      forall j :: 0 <= j < |reqs| && j != i ==> One(key, w)(reqs[j]) == 0.0
    ensures AtMost(s, before + more, key, w, 1)
    ensures |Run(s, before + more).reqs| == |Run(s, before).reqs|
    ensures
      var reqs, now := Run(s, before).reqs, Run(s, before + more).reqs;
      forall j :: 0 <= j < |reqs| && j != i ==> now[j] == reqs[j]
  {
    hide Step, AtMost;
    if more == [] {
      assert before + more == before;
    } else {
      var n := |more| - 1;
      SoloIsSerial(s, before, more[..n], i, key, w);
      assert (before + more[..n]) + [more[n]] == before + more;
      StepIsSolo(Run(s, before + more[..n]), more[n], i);
      RunMore(s, before + more[..n], more[n]);
      OnlyOne(Run(s, before + more).reqs, i, key, w);
      AtMostMore(s, before + more[..n], more[n], key, w);
    }
  }

  lemma AtMostMore(s: System, acts: seq<Act>, a: Act, key: string, w: Window)
    requires AtMost(s, acts, key, w, 1) && Sum(One(key, w), Run(s, acts + [a]).reqs) <= 1.0
    ensures AtMost(s, acts + [a], key, w, 1)
  {
    assert (acts + [a])[..|acts|] == acts;
  }

  lemma StepIsSolo(s: System, a: Act, i: nat)
    requires a.Go? ==> a.who == i
    ensures |Step(s, a).reqs| == |s.reqs|
    ensures forall j :: 0 <= j < |s.reqs| && j != i ==> Step(s, a).reqs[j] == s.reqs[j]
  {
  }

  // ---- What the runs do not break ----

  lemma {:induction false} KeptConcat(s: System, before: seq<Act>, after: seq<Act>, key: string, w: Window)
    requires Kept(s, before, key, w) && Kept(Run(s, before), after, key, w)
    ensures Kept(s, before + after, key, w)
  {
    hide Run, Misses;
    if after == [] {
      assert before + after == before;
    } else {
      var n := |after| - 1;
      KeptConcat(s, before, after[..n], key, w);
      RunConcat(s, before, after[..n]);
      assert (before + after)[..|before| + n] == before + after[..n];
    }
  }

  lemma {:induction false} ReadingConcat(s: System, before: seq<Act>, after: seq<Act>, key: string, w: Window)
    requires Reading(s, before, key, w) && Reading(Run(s, before), after, key, w)
    ensures Reading(s, before + after, key, w)
  {
    hide Run, Misread, Raised;
    if after == [] {
      assert before + after == before;
    } else {
      var n := |after| - 1;
      ReadingConcat(s, before, after[..n], key, w);
      RunConcat(s, before, after[..n]);
      assert (before + after)[..|before| + n] == before + after[..n];
    }
  }

  lemma OneStep(s: System, a: Act, key: string, w: Window)
    ensures !Misses(s, a, key, w) ==> Kept(s, [a], key, w)
    ensures !Misread(s, a, key, w) && !Raised(s, a, key, w) ==> Reading(s, [a], key, w)
  {
    hide Misses, Misread, Raised, Step;
    var one := [a];
    assert one[..|one| - 1] == [] && one[|one| - 1] == a;
    RunNothing(s);
    NothingFails(s, key, w);
  }

  lemma NothingFails(s: System, key: string, w: Window)
    ensures Kept(s, [], key, w) && Reading(s, [], key, w)
  {
  }

  lemma GoKeeps(s: System, a: Act, key: string, w: Window)
    requires a.Go? && a.who < |s.reqs|
    ensures s.reqs[a.who].pc != Track(w) || a.fate.Ok? ==> Kept(s, [a], key, w)
    ensures s.reqs[a.who].pc != LimitGet(w) || a.fate.Ok? ==> Reading(s, [a], key, w)
  {
    hide Kept, Reading;
    OneStep(s, a, key, w);
  }

  lemma {:induction false} AloneKeeps(s: System, i: nat, fate: Pc -> Fate, key: string, w: Window)
    requires i < |s.reqs| && fate(Track(w)).Ok?
    ensures Kept(s, Alone(s.sh, s.reqs[i], i, fate), key, w)
    decreases Rank(s.reqs[i].pc)
  {
    hide Alone, Move, Rank, Run, Kept, Misses;
    var r := s.reqs[i];
    AloneIs(s.sh, r, i, fate);
    if Resting(r.pc) {
      NothingFails(s, key, w);
    } else {
      var a := Go(i, fate(r.pc));
      var s' := Step(s, a);
      RankFalls(s.sh, r, fate(r.pc));
      RunOne(s, a);
      AloneKeeps(s', i, fate, key, w);
      GoKeeps(s, a, key, w);
      KeptConcat(s, [a], Alone(s'.sh, s'.reqs[i], i, fate), key, w);
    }
  }

  lemma {:induction false} AloneReads(s: System, i: nat, fate: Pc -> Fate, key: string, w: Window)
    requires i < |s.reqs| && fate(LimitGet(w)).Ok?
    ensures Reading(s, Alone(s.sh, s.reqs[i], i, fate), key, w)
    decreases Rank(s.reqs[i].pc)
  {
    hide Alone, Move, Rank, Run, Reading, Misread, Raised;
    var r := s.reqs[i];
    AloneIs(s.sh, r, i, fate);
    if Resting(r.pc) {
      NothingFails(s, key, w);
    } else {
      var a := Go(i, fate(r.pc));
      var s' := Step(s, a);
      RankFalls(s.sh, r, fate(r.pc));
      RunOne(s, a);
      AloneReads(s', i, fate, key, w);
      GoKeeps(s, a, key, w);
      ReadingConcat(s, [a], Alone(s'.sh, s'.reqs[i], i, fate), key, w);
    }
  }

  lemma ChargesKeep(s: System, acts: seq<Act>, i: nat)
    requires i < |Run(s, acts).reqs| && Run(s, acts).reqs[i].pc.InFlight?
    ensures Kept(s, acts, "key", Daily) ==> Kept(s, acts + [Go(i, Ok), Go(i, Ok)], "key", Daily)
    ensures Reading(s, acts, "key", Daily) ==> Reading(s, acts + [Go(i, Ok), Go(i, Ok)], "key", Daily)
  {
    hide Run, Kept, Reading;
    var t := Run(s, acts);
    var a, two := Go(i, Ok), [Go(i, Ok), Go(i, Ok)];
    OneStep(t, a, "key", Daily);
    OneStep(Run(t, [a]), a, "key", Daily);
    KeptConcat(t, [a], [a], "key", Daily);
    ReadingConcat(t, [a], [a], "key", Daily);
    assert [a] + [a] == two;
    if Kept(s, acts, "key", Daily) { KeptConcat(s, acts, two, "key", Daily); }
    if Reading(s, acts, "key", Daily) { ReadingConcat(s, acts, two, "key", Daily); }
  }

  // ---- The runs ----

  // Request i runs alone to its upstream call.
  lemma Flies(s: System, acts: seq<Act>, i: nat, limit: real, fate: Pc -> Fate) returns (longer: seq<Act>)
    requires limit > 0.0 && i < 2
    requires
      var t := Run(s, acts);
      && |t.reqs| == 2 && t.reqs[i] == Request0("key", limit, limit) && Ready(t.sh, limit, i)
      && One("key", Daily)(t.reqs[1 - i]) == 0.0
      && (fate(LimitGet(Daily)).Ok? ==> ("key", Daily) !in t.sh.trackers)
    requires forall pc :: pc != LimitGet(Daily) && pc != Track(Daily) ==> fate(pc).Ok?
    requires AtMost(s, acts, "key", Daily, 1)
    ensures AtMost(s, longer, "key", Daily, 1)
    ensures
      var t, now := Run(s, acts), Run(s, longer);
      && now.reqs == t.reqs[i := Request("key", limit, limit, InFlight)] && Ready(now.sh, limit, i + 1)
      && now.sh.Tracked("key", Daily)
         == t.sh.Tracked("key", Daily) + (if fate(Track(Daily)).Ok? then limit else 0.0)
      && (!fate(Track(Daily)).Ok? ==> (("key", Daily) in now.sh.trackers <==> ("key", Daily) in t.sh.trackers))
    ensures Kept(s, acts, "key", Daily) && fate(Track(Daily)).Ok? ==> Kept(s, longer, "key", Daily)
    ensures Reading(s, acts, "key", Daily) && fate(LimitGet(Daily)).Ok? ==> Reading(s, longer, "key", Daily)
    ensures OnlyGo(acts) ==> OnlyGo(longer)
    ensures (forall pc :: fate(pc).Ok?) ==> forall a :: a in longer ==> a in acts || (a.Go? && a.fate.Ok?)
  {
    hide Run, Drive, Alone, AtMost, Kept, Reading, Ready;
    var t := Run(s, acts);
    var more := Alone(t.sh, t.reqs[i], i, fate);
    longer := acts + more;
    Passes(t.sh, limit, i, fate);
    DriveIsASchedule(t, i, fate);
    RunConcat(s, acts, more);
    AloneGoes(t.sh, t.reqs[i], i, fate);
    SoloIsSerial(s, acts, more, i, "key", Daily);
    if Kept(s, acts, "key", Daily) && fate(Track(Daily)).Ok? {
      AloneKeeps(t, i, fate, "key", Daily);
      KeptConcat(s, acts, more, "key", Daily);
    }
    if Reading(s, acts, "key", Daily) && fate(LimitGet(Daily)).Ok? {
      AloneReads(t, i, fate, "key", Daily);
      ReadingConcat(s, acts, more, "key", Daily);
    }
  }

  // Both are charged.
  lemma BothCharged(limit: real, acts: seq<Act>) returns (longer: seq<Act>)
    requires limit > 0.0 && AtMost(Pair(limit), acts, "key", Daily, 1)
    requires
      var t, r := Run(Pair(limit), acts), Request("key", limit, limit, InFlight);
      t.reqs == [r, r] && Ready(t.sh, limit, 2)
    ensures AtMost(Pair(limit), longer, "key", Daily, 1)
    ensures Run(Pair(limit), longer).sh.Recorded("key", Daily) == 2.0 * limit
    ensures Kept(Pair(limit), acts, "key", Daily) ==> Kept(Pair(limit), longer, "key", Daily)
    ensures Reading(Pair(limit), acts, "key", Daily) ==> Reading(Pair(limit), longer, "key", Daily)
    ensures longer == acts + [Go(0, Ok), Go(0, Ok)] + [Go(1, Ok), Go(1, Ok)]
  {
    hide Run, AtMost, Kept, Reading;
    var s := Pair(limit);
    var row := UsageRow("key", limit, true, true);
    longer := Charge(s, acts, 0);
    ChargesKeep(s, acts, 0);
    SoloIsSerial(s, acts, [Go(0, Ok), Go(0, Ok)], 0, "key", Daily);
    var once := longer;
    longer := Charge(s, once, 1);
    ChargesKeep(s, once, 1);
    SoloIsSerial(s, once, [Go(1, Ok), Go(1, Ok)], 1, "key", Daily);
    SumAppend(RowCost("key", Daily), [], row);
    SumAppend(RowCost("key", Daily), [row], row);
    assert Run(s, longer).sh.records == ([] + [row]) + [row];
  }

  lemma PairBegins(limit: real)
    requires limit > 0.0
    ensures
      var s := Pair(limit);
      && WindowBegins(s, "key", Daily) && Bounded(s.reqs, "key", limit)
      && s.sh.Limit("key", Daily) == Some(limit)
      && AtMost(s, [], "key", Daily, 1) && Ready(s.sh, limit, 0)
      && Kept(s, [], "key", Daily) && Reading(s, [], "key", Daily) && Run(s, []) == s
  {
    OnlyOne(Pair(limit).reqs, 2, "key", Daily);
  }

  // What twice the limit spent one request at a time says of the run.
  lemma NotBoth(limit: real, acts: seq<Act>)
    requires limit > 0.0 && AtMost(Pair(limit), acts, "key", Daily, 1)
    requires Run(Pair(limit), acts).sh.Recorded("key", Daily) == 2.0 * limit
    ensures !Kept(Pair(limit), acts, "key", Daily) || !Guarded(Pair(limit), acts, "key", Daily, limit)
    ensures !Kept(Pair(limit), acts, "key", Daily) || !Reading(Pair(limit), acts, "key", Daily)
  {
    hide Run, Kept, Guarded, Reading, AtMost;
    var s := Pair(limit);
    PairBegins(limit);
    if Reading(s, acts, "key", Daily) { ReadingGuards(s, acts, "key", Daily, limit); }
    if Kept(s, acts, "key", Daily) && Guarded(s, acts, "key", Daily, limit) {
      SerialSpendBound(s, acts, "key", Daily, limit, limit);
    }
  }

  /** A tracker that cannot be read is taken for a missing one: the usage records know nothing of the request in
      flight, and two requests, one after the other, spend twice the limit. The run consists of commands only, and
      the tracker misses nothing; it is that the second request slips past it. */
  lemma UnreadTrackerHidesFlight(limit: real) returns (s: System, acts: seq<Act>)
    requires limit > 0.0
    ensures WindowBegins(s, "key", Daily) && Bounded(s.reqs, "key", limit)
    ensures s.sh.Limit("key", Daily) == Some(limit)
    ensures OnlyGo(acts) && AtMost(s, acts, "key", Daily, 1)
    ensures Kept(s, acts, "key", Daily) && !Guarded(s, acts, "key", Daily, limit)
    ensures Run(s, acts).sh.Recorded("key", Daily) == 2.0 * limit
  {
    hide Run, AtMost, Kept, Reading, Guarded;
    s := Pair(limit);
    PairBegins(limit);
    acts := Flies(s, [], 0, limit, AllOk());
    acts := Flies(s, acts, 1, limit, AllBut(LimitGet(Daily)));
    acts := BothCharged(limit, acts);
    NotBoth(limit, acts);
  }

  /** A failing increment loses the estimate of the request in flight, with the same end. The run consists of
      commands only, and every tracker that is there is read; it is that an increment fails. */
  lemma UnwrittenTrackerHidesFlight(limit: real) returns (s: System, acts: seq<Act>)
    requires limit > 0.0
    ensures WindowBegins(s, "key", Daily) && Bounded(s.reqs, "key", limit)
    ensures s.sh.Limit("key", Daily) == Some(limit)
    ensures OnlyGo(acts) && AtMost(s, acts, "key", Daily, 1)
    ensures Reading(s, acts, "key", Daily) && !Kept(s, acts, "key", Daily)
    ensures Run(s, acts).sh.Recorded("key", Daily) == 2.0 * limit
  {
    hide Run, AtMost, Kept, Reading;
    s := Pair(limit);
    PairBegins(limit);
    acts := Flies(s, [], 0, limit, AllBut(Track(Daily)));
    acts := Flies(s, acts, 1, limit, AllOk());
    acts := BothCharged(limit, acts);
    NotBoth(limit, acts);
  }

  /** So does the loss of the tracker: every command succeeds and nothing else happens. */
  lemma LostTrackerHidesFlight(limit: real) returns (s: System, acts: seq<Act>)
    requires limit > 0.0
    ensures WindowBegins(s, "key", Daily) && Bounded(s.reqs, "key", limit)
    ensures s.sh.Limit("key", Daily) == Some(limit)
    ensures forall a :: a in acts ==> a == Evict("key", Daily) || (a.Go? && a.fate.Ok?)
    ensures AtMost(s, acts, "key", Daily, 1)
    ensures Reading(s, acts, "key", Daily) && !Kept(s, acts, "key", Daily)
    ensures Run(s, acts).sh.Recorded("key", Daily) == 2.0 * limit
  {
    hide Run, AtMost, Kept, Reading;
    s := Pair(limit);
    PairBegins(limit);
    acts := Flies(s, [], 0, limit, AllOk());
    var lost := Evict("key", Daily);
    var t := Run(s, acts);
    OneStep(t, lost, "key", Daily);
    ReadingConcat(s, acts, [lost], "key", Daily);
    SoloIsSerial(s, acts, [lost], 2, "key", Daily);
    acts := Then(s, acts, lost);
    acts := Flies(s, acts, 1, limit, AllOk());
    acts := BothCharged(limit, acts);
    NotBoth(limit, acts);
  }

  // ---- The held field ----

  lemma FliesOnMisread(sh: Shared, r: Request, balance: real)
    requires r == Request0("key", balance, balance) && balance > 0.0
    requires sh.cached == Some(balance) && sh.limits == map[]
    ensures
      var (sh', r') := Drive(sh, r, AllBut(ReadHeld(balance)));
      r' == r.(pc := InFlight) && sh'.cached == sh.cached && sh'.wallet == sh.wallet
  {
    hide Drive;
    var fate := AllBut(ReadHeld(balance));
    var held := sh.HIncrHeld(balance);
    DriveOne(sh, r, fate);
    DriveOne(sh, r.(pc := LimitGet(Monthly)), fate);
    DriveOne(sh, r.(pc := CacheExists), fate);
    HoldsOnMisread(sh, r.(pc := PlaceHold), balance);
    Tracks(held, r.(pc := Track(Daily)), fate);
  }

  lemma HoldsOnMisread(sh: Shared, r: Request, balance: real)
    requires r == Request("key", balance, balance, PlaceHold) && balance > 0.0 && sh.cached == Some(balance)
    ensures
      var fate := AllBut(ReadHeld(balance));
      Drive(sh, r, fate) == Drive(sh.HIncrHeld(balance), r.(pc := Track(Daily)), fate)
  {
    hide Drive;
    DriveOne(sh, r, AllBut(ReadHeld(balance)));
    DriveOne(sh.HIncrHeld(balance), r.(pc := ReadHeld(balance)), AllBut(ReadHeld(balance)));
  }

  /** A held field that cannot be read is taken for nothing held: within one lifetime, in a run of commands only, of
      which none of the first request's fails, two requests are admitted on the same money, for every positive
      balance, and the second is refused at settlement. */
  lemma MisreadAdmitsTwice(balance: real) returns (s: System, early: seq<Act>, late: seq<Act>)
    requires balance > 0.0
    ensures Soundness.Start(s) && forall r :: r in s.reqs ==> r.actual <= r.est
    ensures
      var now := Run(s, early);
      now.sh.cached == Some(balance) && Soundness.AdmittedTotal(now) == 2.0 * balance
    ensures |Run(s, early + late).reqs| == 2 && Run(s, early + late).reqs[1].pc == ReleaseHeld(true)
    ensures OnlyGo(early) && (forall a :: a in early && !a.fate.Ok? ==> a == Go(1, Fault)) && Smooth(late)
    ensures !Soundness.Lifetime(s, early + late)
  {
    hide Run, Drive, Alone, Soundness.Lifetime;
    s, early := BothFly(balance);
    var f := Request("key", balance, balance, InFlight);
    SumAppend(Soundness.AdmittedShare(), [], f);
    SumAppend(Soundness.AdmittedShare(), [f], f);
    assert Run(s, early).reqs == ([] + [f]) + [f];
    var charged := Charge(s, early, 0);
    late := Refusal(s, early, charged);
    RefusedIsNoLifetime(s, early + late, 1);
  }

  // A refusal says that the held field was misread, as nothing else that happens can be the cause.
  lemma RefusedIsNoLifetime(s: System, acts: seq<Act>, i: nat)
    requires Soundness.Start(s) && forall r :: r in s.reqs ==> r.actual <= r.est
    requires i < |Run(s, acts).reqs| && Run(s, acts).reqs[i].pc == ReleaseHeld(true)
    ensures !Soundness.Lifetime(s, acts)
  {
    hide Run, Soundness.Lifetime;
    assert Run(s, acts).reqs[i] in Run(s, acts).reqs;
    if Soundness.Lifetime(s, acts) { Soundness.NeverRefused(s, acts); }
  }

  lemma BothFly(balance: real) returns (s: System, early: seq<Act>)
    requires balance > 0.0
    ensures
      var r := Request0("key", balance, balance);
      s == System(Empty(balance, map[]), [r, r])
    ensures
      var t, f := Run(s, early), Request("key", balance, balance, InFlight);
      t.reqs == [f, f] && t.sh.cached == Some(balance) && t.sh.wallet == Some(balance)
    ensures OnlyGo(early) && forall a :: a in early && !a.fate.Ok? ==> a == Go(1, Fault)
  {
    hide Run, Drive, Alone;
    var r := Request0("key", balance, balance);
    s := System(Empty(balance, map[]), [r, r]);
    DriveOne(s.sh, r, AllOk());
    AdmittedFromColdCache(s.sh, r.(pc := LimitGet(Monthly)));
    DriveIsASchedule(s, 0, AllOk());
    early := Alone(s.sh, r, 0, AllOk());
    var t := Run(s, early);
    hide Move;
    FliesOnMisread(t.sh, r, balance);
    DriveIsASchedule(t, 1, AllBut(ReadHeld(balance)));
    var more := Alone(t.sh, r, 1, AllBut(ReadHeld(balance)));
    AloneGoes(s.sh, r, 0, AllOk());
    AloneGoes(t.sh, r, 1, AllBut(ReadHeld(balance)));
    RunConcat(s, early, more);
    early := early + more;
  }

  // Request 0 has taken the money request 1 was admitted on.
  lemma Refusal(s: System, early: seq<Act>, charged: seq<Act>) returns (late: seq<Act>)
    requires charged == early + [Go(0, Ok), Go(0, Ok)]
    requires
      var t := Run(s, charged);
      |t.reqs| == 2 && t.reqs[1].pc.InFlight? && t.sh.wallet.Some? && t.sh.wallet.value < t.reqs[1].actual
    ensures |Run(s, early + late).reqs| == 2 && Run(s, early + late).reqs[1].pc == ReleaseHeld(true)
    ensures Smooth(late)
  {
    hide Run;
    var all := Then(s, charged, Go(1, Ok));
    all := Then(s, all, Go(1, Ok));
    late := [Go(0, Ok), Go(0, Ok), Go(1, Ok), Go(1, Ok)];
    assert all == early + late;
  }
}

/** The sliding-window rate limiter: one Redis sorted set per user and key, one process-wide counter. */
module RateLimit {
  import opened Sums

  const WINDOW := 60
  const CEILING := 3000

  // A sorted set: unique members "now-counter", each with a score.
  type Member = (int, nat)
  type ZSet = map<Member, int>

  // The limiter's memory: the sorted sets, and reqCounter.
  datatype State = State(sets: map<string, ZSet>, counter: nat)

  // A request of some user and key at a clock reading. `expired` tells whether Redis has dropped the set by
  // then; every request renews the 60 second TTL.
  datatype Request = Request(key: string, now: int, expired: bool)

  function Stored(s: State, r: Request): ZSet {
    if r.key in s.sets && !r.expired then s.sets[r.key] else map[]
  }

  // ZREMRANGEBYSCORE key 0 now-60
  function Prune(z: ZSet, now: int): ZSet {
    map m | m in z && !(0 <= z[m] <= now - WINDOW) :: z[m]
  }

  // The pipeline: prune, add a fresh member, count.
  function Admit(s: State, r: Request): (State, nat) {
    var counter := s.counter + 1;
    var z := Prune(Stored(s, r), r.now)[(r.now, counter) := r.now];
    (State(s.sets[r.key := z], counter), |z|)
  }

  function Limit(rpm: int): int { if rpm > CEILING then CEILING else rpm }

  function Run(s: State, rs: seq<Request>): State {
    if rs == [] then s else Admit(Run(s, rs[..|rs| - 1]), rs[|rs| - 1]).0
  }

  function Fresh(): State { State(map[], 0) }

  class RateLimiter {
    var sets: map<string, ZSet>
    var counter: nat

    function Now(): State
      reads this
    {
      State(sets, counter)
    }

    constructor ()
      ensures Now() == Fresh()
    {
      sets, counter := map[], 0;
    }

    /** One request. A Redis failure lets it pass; otherwise it passes when the count, itself included, is
        within the capped limit, and is counted either way. */
    method Handle(r: Request, rpm: int, redisOk: bool) returns (passed: bool, remaining: int)
      modifies this
      ensures redisOk ==> Now() == Admit(old(Now()), r).0
      ensures redisOk ==>
        var count := Admit(old(Now()), r).1;
        && passed == (count <= rpm && count <= 3000)
        && remaining == (if !passed then 0 else if rpm < 3000 then rpm - count else 3000 - count)
      ensures !redisOk ==> passed && Now() == State(old(sets), old(counter) + 1)
    {
      counter := counter + 1;
      if !redisOk {
        return true, 0;
      }
      var z: ZSet := map[];
      if r.key in sets && !r.expired { z := sets[r.key]; }
      z := map m | m in z && !(0 <= z[m] <= r.now - WINDOW) :: z[m];
      z := z[(r.now, counter) := r.now];
      var count := |z|;
      sets := sets[r.key := z];
      var limit := rpm;
      if limit > CEILING { limit := CEILING; }
      remaining := limit - count;
      if remaining < 0 { remaining := 0; }
      passed := !(count > limit);
    }
  }

  // ---- Whole histories ----

  // The clock starts positive and never goes back, and a set only expires 60 seconds after its last use.
  predicate Timely(rs: seq<Request>) {
    && (forall i :: 0 <= i < |rs| ==> rs[i].now > 0)
    && (forall i, j :: 0 <= i < j < |rs| ==> rs[i].now <= rs[j].now)
    && (forall i, j :: 0 <= i < j < |rs| && rs[i].key == rs[j].key && rs[j].expired ==> rs[j].now - rs[i].now >= 60)
  }

  // How many of the requests belong to the key and came after `since`.
  function CountSince(rs: seq<Request>, key: string, since: int): nat {
    if rs == [] then 0
    else
      var last := rs[|rs| - 1];
      CountSince(rs[..|rs| - 1], key, since) + (if last.key == key && last.now > since then 1 else 0)
  }

  // The members those requests have in the set: request number i adds (now, i + 1).
  function Members(rs: seq<Request>, key: string, since: int): ZSet {
    if rs == [] then map[]
    else
      var last := rs[|rs| - 1];
      var z := Members(rs[..|rs| - 1], key, since);
      if last.key == key && last.now > since then z[(last.now, |rs|) := last.now] else z
  }

  lemma {:induction false} MembersAre(rs: seq<Request>, key: string, since: int)
    ensures forall m :: m in Members(rs, key, since) <==>
      1 <= m.1 <= |rs| && rs[m.1 - 1].key == key && rs[m.1 - 1].now > since && rs[m.1 - 1].now == m.0
    ensures forall m :: m in Members(rs, key, since) ==> Members(rs, key, since)[m] == m.0
  {
    if rs != [] {
      MembersAre(rs[..|rs| - 1], key, since);
    }
  }

  lemma {:induction false} MembersCount(rs: seq<Request>, key: string, since: int)
    ensures |Members(rs, key, since)| == CountSince(rs, key, since)
  {
    if rs != [] {
      var before := rs[..|rs| - 1];
      var last := rs[|rs| - 1];
      MembersCount(before, key, since);
      MembersAre(before, key, since);
      var z := Members(before, key, since);
      assert (last.now, |rs|) !in z;
    }
  }

  lemma {:induction false} CountZero(rs: seq<Request>, key: string, since: int)
    requires forall i :: 0 <= i < |rs| && rs[i].key == key ==> rs[i].now <= since
    ensures Members(rs, key, since) == map[]
  {
    if rs != [] {
      CountZero(rs[..|rs| - 1], key, since);
    }
  }

  lemma PruneMembers(rs: seq<Request>, key: string, since: int, now: int)
    requires Timely(rs) && since <= now - 60
    ensures Prune(Members(rs, key, since), now) == Members(rs, key, now - 60)
  {
    MembersAre(rs, key, since);
    MembersAre(rs, key, now - 60);
  }

  // When the key was last used.
  function LastUse(rs: seq<Request>, key: string): Option<int> {
    if rs == [] then None
    else if rs[|rs| - 1].key == key then Some(rs[|rs| - 1].now) else LastUse(rs[..|rs| - 1], key)
  }

  lemma {:induction false} LastUseIsLatest(rs: seq<Request>, key: string)
    requires Timely(rs)
    ensures LastUse(rs, key).None? ==> forall i :: 0 <= i < |rs| ==> rs[i].key != key
    ensures LastUse(rs, key).Some? ==>
      && (rs != [] && LastUse(rs, key).value <= rs[|rs| - 1].now)
      && forall i :: 0 <= i < |rs| && rs[i].key == key ==> rs[i].now <= LastUse(rs, key).value
  {
    if rs != [] && rs[|rs| - 1].key != key {
      LastUseIsLatest(rs[..|rs| - 1], key);
    }
  }

  // The stored set of the key is the window before its last use.
  ghost predicate HoldsWindow(s: State, rs: seq<Request>, key: string) {
    && s.counter == |rs|
    && (key in s.sets <==> LastUse(rs, key).Some?)
    && (key in s.sets ==> s.sets[key] == Members(rs, key, LastUse(rs, key).value - 60))
  }

  // What is left after pruning is the window, whether or not the TTL has dropped the set.
  lemma PrunedIsWindow(s: State, before: seq<Request>, last: Request)
    requires Timely(before + [last]) && HoldsWindow(s, before, last.key)
    ensures Prune(Stored(s, last), last.now) == Members(before, last.key, last.now - 60)
  {
    var rs := before + [last];
    assert forall i :: 0 <= i < |before| ==> rs[i] == before[i];
    assert Timely(before);
    LastUseIsLatest(before, last.key);
    if last.key in s.sets && !last.expired {
      assert rs[|before| - 1].now <= rs[|before|].now;
      PruneMembers(before, last.key, LastUse(before, last.key).value - 60, last.now);
    } else {
      forall i | 0 <= i < |before| && before[i].key == last.key
        ensures before[i].now <= last.now - 60
      {
        assert rs[i].key == rs[|before|].key;
      }
      CountZero(before, last.key, last.now - 60);
    }
  }

  /** After any history, the stored set of every key holds exactly the members of its requests in the window
      before its last use, and the counter is the number of requests. */
  lemma {:induction false} StoredIsWindow(rs: seq<Request>, key: string)
    requires Timely(rs)
    ensures HoldsWindow(Run(Fresh(), rs), rs, key)
  {
    if rs != [] {
      hide Admit, HoldsWindow;
      var before := rs[..|rs| - 1];
      var last := rs[|rs| - 1];
      var s := Run(Fresh(), before);
      StoredIsWindow(before, key);
      assert before + [last] == rs;
      AdmitKeepsWindow(s, before, last, key);
    }
  }

  lemma AdmitKeepsWindow(s: State, before: seq<Request>, last: Request, key: string)
    requires Timely(before + [last]) && HoldsWindow(s, before, key)
    ensures HoldsWindow(Admit(s, last).0, before + [last], key)
  {
    var rs := before + [last];
    assert rs[..|before|] == before;
    if last.key == key {
      hide Prune;
      PrunedIsWindow(s, before, last);
      var since := last.now - 60;
      assert Members(rs, key, since) == Members(before, key, since)[(last.now, |rs|) := last.now];
    }
  }

  /** The count a request is judged by is the number of requests of its key, admitted or not and itself
      included, in the 60 seconds up to now; the TTL never changes it. */
  lemma CountIsExact(rs: seq<Request>)
    requires Timely(rs) && rs != []
    ensures
      var before, last := rs[..|rs| - 1], rs[|rs| - 1];
      Admit(Run(Fresh(), before), last).1 == CountSince(rs, last.key, last.now - 60)
  {
    var last := rs[|rs| - 1];
    StoredIsWindow(rs, last.key);
    MembersCount(rs, last.key, last.now - 60);
  }

  // Request i passes a limiter with this limit.
  predicate Passed(rs: seq<Request>, i: nat, rpm: int)
    requires i < |rs|
  {
    Admit(Run(Fresh(), rs[..i]), rs[i]).1 <= Limit(rpm)
  }

  // Admitted requests of the key in the window (end - 60, end].
  function PassedIn(rs: seq<Request>, key: string, rpm: int, end: int): nat {
    if rs == [] then 0
    else
      var n := |rs| - 1;
      PassedIn(rs[..n], key, rpm, end)
      + (if rs[n].key == key && end - 60 < rs[n].now <= end && Passed(rs, n, rpm) then 1 else 0)
  }

  lemma {:induction false} PassedAreCounted(rs: seq<Request>, key: string, rpm: int, end: int)
    ensures PassedIn(rs, key, rpm, end) <= CountSince(rs, key, end - 60)
  {
    if rs != [] {
      PassedAreCounted(rs[..|rs| - 1], key, rpm, end);
    }
  }

  lemma {:induction false} CountSinceShrinks(rs: seq<Request>, key: string, since: int, later: int)
    requires since <= later
    ensures CountSince(rs, key, later) <= CountSince(rs, key, since)
  {
    if rs != [] {
      CountSinceShrinks(rs[..|rs| - 1], key, since, later);
    }
  }

  lemma PassedWithinLimit(rs: seq<Request>, rpm: int)
    requires Timely(rs) && rs != [] && Passed(rs, |rs| - 1, rpm)
    ensures CountSince(rs, rs[|rs| - 1].key, rs[|rs| - 1].now - 60) <= Limit(rpm)
  {
    hide Admit, Run;
    CountIsExact(rs);
  }

  lemma {:induction false} PassedAreWithinLimit(rs: seq<Request>, key: string, rpm: int, end: int)
    requires Timely(rs)
    ensures PassedIn(rs, key, rpm, end) <= (if Limit(rpm) < 0 then 0 else Limit(rpm))
  {
    hide Admit, Run, Passed, Limit, CountSince;
    if rs != [] {
      var n := |rs| - 1;
      var last := rs[n];
      PassedAreWithinLimit(rs[..n], key, rpm, end);
      if last.key == key && end - 60 < last.now <= end && Passed(rs, n, rpm) {
        PassedWithinLimit(rs, rpm);
        PassedAreCounted(rs, key, rpm, end);
        CountSinceShrinks(rs, key, last.now - 60, end - 60);
      }
    }
  }

  /** The guarantee: over any history with a clock that does not go back, the requests admitted for a key in
      any 60 second window number at most its RPM, and at most 3000 whatever its RPM. A key without a positive
      RPM is admitted nothing. */
  lemma AdmittedWithinLimit(rs: seq<Request>, key: string, rpm: int, end: int)
    requires Timely(rs)
    ensures PassedIn(rs, key, rpm, end) <= 3000
    ensures if rpm > 0 then PassedIn(rs, key, rpm, end) <= rpm else PassedIn(rs, key, rpm, end) == 0
  {
    PassedAreWithinLimit(rs, key, rpm, end);
  }

  /** The exact rule, refused requests counting like admitted ones: a request passes precisely when its key
      has sent no more than its RPM, and no more than 3000, itself included, in the 60 seconds up to it. */
  lemma PassesIff(rs: seq<Request>, rpm: int)
    requires Timely(rs) && rs != []
    ensures
      var last := rs[|rs| - 1];
      var count := CountSince(rs, last.key, last.now - 60);
      Passed(rs, |rs| - 1, rpm) <==> count <= rpm && count <= 3000
  {
    CountIsExact(rs);
  }

  /** The guarantee rests on the clock not going back: a request stamped 60 seconds ahead prunes the window,
      and the next one is admitted over the limit. */
  lemma ClockSkewAdmitsTooMany(key: string)
    ensures
      var a, b := Request(key, 100, false), Request(key, 160, false);
      var rs := [a, a, b, a];
      && Passed(rs, 0, 2) && Passed(rs, 1, 2) && Passed(rs, 3, 2)
      && rs[0].now == rs[1].now == rs[3].now
      && !Timely(rs)
  {
    var a, b := Request(key, 100, false), Request(key, 160, false);
    var rs := [a, a, b, a];
    hide Admit, Prune, Run, First, Second, Ahead, Back;
    Windows();
    assert Fresh() == State(map[], 0);
    AdmitIs(Fresh(), a, map[], First());
    AdmitIs(State(map[key := First()], 1), a, First(), Second());
    AdmitIs(State(map[key := Second()], 2), b, Second(), Ahead());
    AdmitIs(State(map[key := Ahead()], 3), a, Ahead(), Back());
    RunNone();
    RunMore([], a);
    RunMore([a], a);
    RunMore([a, a], b);
    assert rs[..0] == [] && rs[..1] == [a] && rs[..2] == [a, a] && rs[..3] == [a, a, b];
    assert [] + [a] == [a] && [a] + [a] == [a, a] && [a, a] + [b] == [a, a, b];
    assert rs[2].now > rs[3].now;
  }

  // The stored set after each of the four requests.
  function First(): ZSet { map[(100, 1) := 100] }
  function Second(): ZSet { map[(100, 1) := 100, (100, 2) := 100] }
  function Ahead(): ZSet { map[(160, 3) := 160] }
  function Back(): ZSet { map[(160, 3) := 160, (100, 4) := 100] }

  lemma Windows()
    ensures Prune(map[], 100)[(100, 1) := 100] == First() && |First()| == 1
    ensures Prune(First(), 100)[(100, 2) := 100] == Second() && |Second()| == 2
    ensures Prune(Second(), 160)[(160, 3) := 160] == Ahead()
    ensures Prune(Ahead(), 100)[(100, 4) := 100] == Back() && |Back()| == 2
  {
    assert Prune(map[], 100) == map[];
    assert Prune(First(), 100) == First();
    assert Prune(Second(), 160) == map[];
    assert Prune(Ahead(), 100) == Ahead();
  }

  lemma RunNone()
    ensures Run(Fresh(), []) == Fresh()
  {
  }

  lemma RunMore(rs: seq<Request>, r: Request)
    ensures Run(Fresh(), rs + [r]) == Admit(Run(Fresh(), rs), r).0
  {
    assert (rs + [r])[..|rs|] == rs;
  }

  // From the key's only set z the next request makes z'.
  lemma AdmitIs(s: State, r: Request, z: ZSet, z': ZSet)
    requires !r.expired && (s == State(map[r.key := z], s.counter) || (s.sets == map[] && z == map[]))
    requires Prune(z, r.now)[(r.now, s.counter + 1) := r.now] == z'
    ensures Admit(s, r) == (State(map[r.key := z'], s.counter + 1), |z'|)
  {
    assert Stored(s, r) == z;
    assert s.sets[r.key := z'] == map[r.key := z'];
  }
}

/** The pool of upstream API keys: selection, rotation, and draining. */
module KeyPool {
  import opened Sums

  const DEFAULT_KEY_CAPACITY := 1200
  const MIN_REMAINING := 100

  datatype Entry = Entry(key: string, remaining: int, lastUsed: int, errors: int)

  predicate Eligible(e: Entry) { e.key != "" && e.remaining >= MIN_REMAINING }

  // More remaining, or as much and used less recently.
  predicate Better(a: Entry, b: Entry) {
    a.remaining > b.remaining || (a.remaining == b.remaining && a.lastUsed < b.lastUsed)
  }

  // A key that may be handed out: at least 100 requests are left on it.
  predicate Healthy(e: Entry) { e.key != "" && 100 <= e.remaining }

  /** The specification: the most remaining, then the least recently used, then the lowest index. */
  predicate IsBest(es: seq<Entry>, i: int) {
    && 0 <= i < |es| && Healthy(es[i])
    && (forall j :: 0 <= j < |es| && Healthy(es[j]) ==> es[j].remaining <= es[i].remaining)
    && (forall j :: 0 <= j < |es| && Healthy(es[j]) && es[j].remaining == es[i].remaining ==>
          es[i].lastUsed <= es[j].lastUsed)
    && (forall j :: 0 <= j < i && Healthy(es[j]) && es[j].remaining == es[i].remaining ==>
          es[i].lastUsed < es[j].lastUsed)
  }

  lemma BestIsUnique(es: seq<Entry>, i: int, j: int)
    requires IsBest(es, i) && IsBest(es, j)
    ensures i == j
  {
  }

  // The selection scan over the first n entries; -1 when none is eligible.
  function Best(es: seq<Entry>, n: nat): int
    requires n <= |es|
    ensures -1 <= Best(es, n) < n
    ensures Best(es, n) >= 0 ==> Eligible(es[Best(es, n)])
  {
    if n == 0 then -1
    else
      var b := Best(es, n - 1);
      if Eligible(es[n - 1]) && (b == -1 || Better(es[n - 1], es[b])) then n - 1 else b
  }

  lemma {:induction false} BestIsBest(es: seq<Entry>, n: nat)
    requires n <= |es|
    ensures if Best(es, n) >= 0 then IsBest(es[..n], Best(es, n)) else forall j :: 0 <= j < n ==> !Healthy(es[j])
  {
    if n > 0 {
      BestIsBest(es, n - 1);
      OneMoreEntry(es[..n - 1], es[n - 1], Best(es, n - 1));
      assert es[..n] == es[..n - 1] + [es[n - 1]];
      assert forall j :: 0 <= j < n ==> es[..n][j] == es[j];
    }
  }

  // The best so far against one more entry.
  lemma OneMoreEntry(before: seq<Entry>, last: Entry, b: int)
    requires -1 <= b < |before|
    requires if b >= 0 then IsBest(before, b) else forall e :: e in before ==> !Healthy(e)
    ensures
      var es := before + [last];
      var best := if Healthy(last) && (b == -1 || Better(last, before[b])) then |before| else b;
      if best >= 0 then IsBest(es, best) else forall e :: e in es ==> !Healthy(e)
  {
    var es := before + [last];
    assert forall j :: 0 <= j < |before| ==> es[j] == before[j];
    assert es[|before|] == last;
    if b == -1 {
      forall j | 0 <= j < |before| ensures !Healthy(es[j]) {
        assert before[j] in before;
      }
    }
  }

  // First entry holding this key.
  function IndexOf(es: seq<Entry>, key: string): int
    ensures -1 <= IndexOf(es, key) < |es|
    ensures IndexOf(es, key) >= 0 ==> es[IndexOf(es, key)].key == key
  {
    if es == [] then -1
    else if IndexOf(es[..|es| - 1], key) >= 0 then IndexOf(es[..|es| - 1], key)
    else if es[|es| - 1].key == key then |es| - 1 else -1
  }

  lemma {:induction false} IndexOfFirst(es: seq<Entry>, key: string)
    ensures IndexOf(es, key) == -1 ==> forall j :: 0 <= j < |es| ==> es[j].key != key
    ensures forall j :: 0 <= j < IndexOf(es, key) ==> es[j].key != key
  {
    if es != [] {
      IndexOfFirst(es[..|es| - 1], key);
    }
  }

  function Selected(es: seq<Entry>, now: int): (seq<Entry>, string) {
    var b := Best(es, |es|);
    if b == -1 then (es, "") else (es[b := es[b].(lastUsed := now)], es[b].key)
  }

  // A missing or unparsable X-RateLimit-Remaining header changes nothing.
  function Updated(es: seq<Entry>, key: string, header: Option<int>): seq<Entry> {
    var i := IndexOf(es, key);
    if header.None? || i == -1 then es else es[i := es[i].(remaining := header.value)]
  }

  function ErrorMarked(es: seq<Entry>, key: string): seq<Entry> {
    var i := IndexOf(es, key);
    if i == -1 then es else es[i := es[i].(errors := es[i].errors + 1)]
  }

  class KeyPool {
    var keys: seq<Entry>

    constructor (apiKeys: seq<string>)
      ensures |keys| == |apiKeys|
      ensures forall i :: 0 <= i < |apiKeys| ==> keys[i] == Entry(apiKeys[i], 1200, 0, 0)
    {
      keys := seq(|apiKeys|, i requires 0 <= i < |apiKeys| => Entry(apiKeys[i], DEFAULT_KEY_CAPACITY, 0, 0));
    }

    /** Select scans with running best variables, as long as the clock read at its start does not matter:
        the first eligible key always beats the initial best. `now` is the clock read at the end. */
    method Select(started: int, now: int) returns (key: string)
      modifies this
      ensures (keys, key) == Selected(old(keys), now)
    {
      var bestIdx := -1;
      var bestRemaining := -1;
      var bestLastUsed := started;
      for i := 0 to |keys|
        invariant bestIdx == Best(keys, i)
        invariant bestIdx == -1 ==> bestRemaining == -1
        invariant bestIdx >= 0 ==> bestRemaining == keys[bestIdx].remaining && bestLastUsed == keys[bestIdx].lastUsed
      {
        if keys[i].key == "" { continue; }
        var remaining := keys[i].remaining;
        if remaining < MIN_REMAINING { continue; }
        var lastUsed := keys[i].lastUsed;
        if remaining > bestRemaining || (remaining == bestRemaining && lastUsed < bestLastUsed) {
          bestIdx, bestRemaining, bestLastUsed := i, remaining, lastUsed;
        }
      }
      if bestIdx == -1 { return ""; }
      keys := keys[bestIdx := keys[bestIdx].(lastUsed := now)];
      key := keys[bestIdx].key;
    }

    method Find(key: string) returns (index: int)
      ensures index == IndexOf(keys, key)
    {
      for i := 0 to |keys|
        invariant IndexOf(keys[..i], key) == -1
      {
        assert keys[..i + 1][..i] == keys[..i];
        if keys[i].key == key {
          IndexOfExtends(keys, i + 1, key);
          return i;
        }
      }
      assert keys[..|keys|] == keys;
      index := -1;
    }

    method UpdateFromHeaders(key: string, header: Option<int>)
      modifies this
      ensures keys == Updated(old(keys), key, header)
    {
      if header.None? { return; }
      var i := Find(key);
      if i >= 0 {
        keys := keys[i := keys[i].(remaining := header.value)];
      }
    }

    method MarkError(key: string)
      modifies this
      ensures keys == ErrorMarked(old(keys), key)
    {
      var i := Find(key);
      if i >= 0 {
        keys := keys[i := keys[i].(errors := keys[i].errors + 1)];
      }
    }

    /** The key traffic of one ChatCompletion: select, then either record the transport error, or leave a
        non-200 answer alone, or take the capacity from the headers. */
    method ChatCompletion(started: int, now: int, reply: Reply) returns (key: string)
      modifies this
      ensures (keys, key) == Call(old(keys), now, reply)
    {
      key := Select(started, now);
      if key == "" { return; }
      match reply
      case TransportError => MarkError(key);
      case Refused =>
      case Served(header) => UpdateFromHeaders(key, header);
    }
  }

  lemma {:induction false} IndexOfExtends(es: seq<Entry>, n: nat, key: string)
    requires n <= |es| && IndexOf(es[..n], key) >= 0
    ensures IndexOf(es, key) == IndexOf(es[..n], key)
  {
    if n == |es| {
      assert es[..n] == es;
    } else {
      var m := |es| - 1;
      assert es[..m][..n] == es[..n];
      IndexOfExtends(es[..m], n, key);
    }
  }

  datatype Reply = TransportError | Refused | Served(header: Option<int>)

  function Call(es: seq<Entry>, now: int, reply: Reply): (seq<Entry>, string) {
    var (es', key) := Selected(es, now);
    if key == "" then (es', key)
    else
      match reply
      case TransportError => (ErrorMarked(es', key), key)
      case Refused => (es', key)
      case Served(header) => (Updated(es', key, header), key)
  }

  /** Select returns the lexicographic best eligible key, or nothing exactly when none is eligible. */
  lemma SelectPicksTheBest(es: seq<Entry>, now: int)
    ensures
      var (es', key) := Selected(es, now);
      if key == "" then es' == es && forall j :: 0 <= j < |es| ==> !Healthy(es[j])
      else exists i :: IsBest(es, i) && key == es[i].key && es' == es[i := es[i].(lastUsed := now)]
  {
    BestIsBest(es, |es|);
    assert es[..|es|] == es;
  }

  // ---- Rotation of an undisturbed pool ----

  // The pool after selections at these clock readings, no answer having changed any capacity.
  function After(es: seq<Entry>, clock: seq<int>): seq<Entry>
    ensures |After(es, clock)| == |es|
  {
    if clock == [] then es else Selected(After(es, clock[..|clock| - 1]), clock[|clock| - 1]).0
  }

  // The index selected next.
  function Pick(es: seq<Entry>): int { Best(es, |es|) }

  lemma PickIs(es: seq<Entry>, i: nat)
    requires IsBest(es, i)
    ensures Pick(es) == i
  {
    BestIsBest(es, |es|);
    assert es[..|es|] == es;
    if Pick(es) >= 0 {
      BestIsUnique(es, i, Pick(es));
    }
  }

  predicate Level(es: seq<Entry>, capacity: int) {
    capacity >= 100 && forall i :: 0 <= i < |es| ==> es[i].key != "" && es[i].remaining == capacity
  }

  predicate Unused(es: seq<Entry>) { forall i :: 0 <= i < |es| ==> es[i].lastUsed == 0 }

  predicate Positive(clock: seq<int>) { forall t :: 0 <= t < |clock| ==> clock[t] > 0 }

  predicate Increasing(clock: seq<int>) { forall t, u :: 0 <= t < u < |clock| ==> clock[t] < clock[u] }

  /** From a fresh pool of n keys the first n selections take key 0, 1, ..., n-1, however slowly a positive
      clock moves, and each records its own reading. */
  lemma {:induction false} FirstRound(es: seq<Entry>, capacity: int, clock: seq<int>)
    requires Level(es, capacity) && Unused(es) && Positive(clock) && |clock| <= |es|
    ensures
      var now := After(es, clock);
      && Level(now, capacity)
      && (forall i :: 0 <= i < |es| ==> now[i] == es[i].(lastUsed := if i < |clock| then clock[i] else 0))
      && (|clock| < |es| ==> Pick(now) == |clock|)
  {
    if clock != [] {
      FirstRound(es, capacity, clock[..|clock| - 1]);
    }
    var now := After(es, clock);
    if |clock| < |es| {
      PickIs(now, |clock|);
    }
  }

  // i comes before j when counting round from c.
  predicate Before(c: int, i: int, j: int) {
    if i < c <= j then false else if j < c <= i then true else i < j
  }

  // Whoever comes later in the round was used later; keys not used yet are in index order.
  predicate RoundRobin(es: seq<Entry>, c: int, now: int) {
    && 0 <= c < |es|
    && (forall i :: 0 <= i < |es| ==> 0 <= es[i].lastUsed <= now)
    && forall i, j :: 0 <= i < |es| && 0 <= j < |es| && Before(c, i, j) ==>
         es[i].lastUsed < es[j].lastUsed || (es[i].lastUsed == es[j].lastUsed == 0 && i < j)
  }

  function Next(c: int, n: int): int { if c + 1 == n then 0 else c + 1 }

  lemma RoundRobinStep(es: seq<Entry>, capacity: int, c: int, last: int, now: int)
    requires Level(es, capacity) && RoundRobin(es, c, last) && 0 <= last < now
    ensures Pick(es) == c
    ensures Level(Selected(es, now).0, capacity) && RoundRobin(Selected(es, now).0, Next(c, |es|), now)
  {
    forall j | 0 <= j < |es| && j != c
      ensures Before(c, c, j)
    {
    }
    PickIs(es, c);
    hide Best;
  }

  lemma NextIsMod(t: nat, n: nat)
    requires n > 0
    ensures Next(t % n, n) == (t + 1) % n
  {
    var q, r := t / n, t % n;
    assert t == q * n + r;
    if r + 1 == n {
      assert t + 1 == (q + 1) * n;
      ModIs(t + 1, q + 1, 0, n);
    } else {
      ModIs(t + 1, q, r + 1, n);
    }
  }

  lemma ModIs(a: nat, q: nat, r: nat, n: nat)
    requires n > 0 && a == q * n + r && r < n
    ensures a % n == r
  {
    SmallMultiple(q - a / n, n, a % n - r);
  }

  lemma SmallMultiple(d: int, n: int, k: int)
    requires n > 0 && d * n == k && -n < k < n
    ensures k == 0
  {
  }

  lemma ModPeriod(t: nat, n: nat)
    requires n > 0
    ensures (t + n) % n == t % n
  {
    var q, r := t / n, t % n;
    assert t + n == (q + 1) * n + r;
    ModIs(t + n, q + 1, r, n);
  }

  lemma {:induction false} Rotating(es: seq<Entry>, capacity: int, clock: seq<int>)
    requires Level(es, capacity) && Unused(es) && |es| > 0 && Positive(clock) && Increasing(clock)
    ensures
      var now := After(es, clock);
      && Level(now, capacity)
      && RoundRobin(now, |clock| % |es|, if clock == [] then 0 else clock[|clock| - 1])
      && Pick(now) == |clock| % |es|
  {
    var n := |clock|;
    if n == 0 {
      PickIs(es, 0);
    } else {
      var before := clock[..n - 1];
      Rotating(es, capacity, before);
      RoundRobinStep(After(es, before), capacity, (n - 1) % |es|, if before == [] then 0 else before[n - 2],
                     clock[n - 1]);
      NextIsMod(n - 1, |es|);
      RoundRobinStep(After(es, clock), capacity, n % |es|, clock[n - 1], clock[n - 1] + 1);
    }
  }

  lemma PicksInTurn(es: seq<Entry>, capacity: int, clock: seq<int>)
    requires Level(es, capacity) && Unused(es) && |es| > 0 && Positive(clock) && Increasing(clock)
    ensures Pick(After(es, clock)) == |clock| % |es|
  {
    Rotating(es, capacity, clock);
  }

  /** With equal capacities and a strictly increasing clock the pool rotates for ever: selection number t takes
      key t mod n, so the sequence has period n. */
  lemma RotationHasPeriod(es: seq<Entry>, capacity: int, clock: seq<int>, t: nat)
    requires Level(es, capacity) && Unused(es) && |es| > 0 && Positive(clock) && Increasing(clock)
    requires t + |es| <= |clock|
    ensures Pick(After(es, clock[..t])) == t % |es|
    ensures Pick(After(es, clock[..t + |es|])) == t % |es|
  {
    hide After, Pick, Level, Unused, Positive, Increasing;
    PickAt(es, capacity, clock, t);
    PickAt(es, capacity, clock, t + |es|);
    ModPeriod(t, |es|);
  }

  lemma PickAt(es: seq<Entry>, capacity: int, clock: seq<int>, t: nat)
    requires Level(es, capacity) && Unused(es) && |es| > 0 && Positive(clock) && Increasing(clock)
    requires t <= |clock|
    ensures Pick(After(es, clock[..t])) == t % |es|
  {
    hide After, Pick, Level, Unused;
    assert |clock[..t]| == t;
    PicksInTurn(es, capacity, clock[..t]);
  }

  /** A clock standing still is not enough: once every key was used within one second, the first key is
      selected every time. */
  lemma {:induction false} StandingClockSticksToFirst(es: seq<Entry>, capacity: int, now: int, times: nat)
    requires Level(es, capacity) && |es| > 0 && forall i :: 0 <= i < |es| ==> es[i].lastUsed == now
    ensures After(es, seq(times, i => now)) == es && Pick(After(es, seq(times, i => now))) == 0
  {
    PickIs(es, 0);
    if times > 0 {
      assert seq(times, i => now)[..times - 1] == seq(times - 1, i => now);
      StandingClockSticksToFirst(es, capacity, now, times - 1);
      assert es[0 := es[0].(lastUsed := now)] == es;
    }
  }

  // ---- Draining under real traffic ----

  datatype Event = Event(now: int, reply: Reply)

  function RunCalls(es: seq<Entry>, events: seq<Event>): seq<Entry> {
    if events == [] then es
    else
      var last := events[|events| - 1];
      Call(RunCalls(es, events[..|events| - 1]), last.now, last.reply).0
  }

  predicate DistinctKeys(es: seq<Entry>) {
    forall i, j :: 0 <= i < j < |es| ==> es[i].key != es[j].key
  }

  // A call touches the selected entry only.
  lemma CallTouchesSelected(es: seq<Entry>, now: int, reply: Reply)
    requires DistinctKeys(es)
    ensures
      var (es', key) := Call(es, now, reply);
      && |es'| == |es|
      && (forall j :: 0 <= j < |es| ==> es'[j].key == es[j].key)
      && (forall j :: 0 <= j < |es| && es[j].key != key ==> es'[j] == es[j])
      && (key != "" ==> exists b :: 0 <= b < |es| && Healthy(es[b]) && es[b].key == key)
  {
    var (es', key) := Selected(es, now);
    IndexOfFirst(es', key);
  }

  /** Drained keys stay drained: over any serial traffic with distinct keys, an entry below the threshold
      keeps its exact capacity, and is never eligible again. */
  lemma {:induction false} DrainedStaysDrained(es: seq<Entry>, events: seq<Event>, j: nat)
    requires DistinctKeys(es) && j < |es| && !Healthy(es[j])
    ensures
      var now := RunCalls(es, events);
      && |now| == |es| && DistinctKeys(now)
      && now[j] == es[j]
  {
    if events != [] {
      var before := events[..|events| - 1];
      var last := events[|events| - 1];
      DrainedStaysDrained(es, before, j);
      CallTouchesSelected(RunCalls(es, before), last.now, last.reply);
    }
  }

  /** So the eligible set only shrinks, and no later call hands out a drained key. */
  lemma NeverHandedOutAgain(es: seq<Entry>, events: seq<Event>, j: nat, now: int)
    requires DistinctKeys(es) && j < |es| && !Healthy(es[j]) && es[j].key != ""
    ensures |RunCalls(es, events)| == |es| && !Healthy(RunCalls(es, events)[j])
    ensures Selected(RunCalls(es, events), now).1 != es[j].key
  {
    DrainedStaysDrained(es, events, j);
    SelectPicksTheBest(RunCalls(es, events), now);
  }

  lemma IndexIs(es: seq<Entry>, j: nat)
    requires DistinctKeys(es) && j < |es|
    ensures IndexOf(es, es[j].key) == j
  {
    IndexOfFirst(es, es[j].key);
  }

  /** What a call on a pool of distinct keys changes: the entry it picked is stamped, takes whatever the header says
      is left, or counts one more error; nothing else. After a header below 100 that key is never handed out again,
      whatever the traffic. */
  lemma LowHeaderDrains(es: seq<Entry>, j: nat, now: int, header: int, events: seq<Event>, later: int)
    requires DistinctKeys(es) && IsBest(es, j)
    ensures
      var Entry(key, left, _, errors) := es[j];
      && Call(es, now, TransportError) == (es[j := Entry(key, left, now, errors + 1)], key)
      && Call(es, now, Refused) == (es[j := Entry(key, left, now, errors)], key)
    ensures Call(es, now, Served(None)) == Call(es, now, Refused)
    ensures
      var (es', key) := Call(es, now, Served(Some(header)));
      && key == es[j].key && es' == es[j := Entry(key, header, now, es[j].errors)]
      && (header < 100 ==> Selected(RunCalls(es', events), later).1 != key)
  {
    PickIs(es, j);
    IndexIs(es[j := es[j].(lastUsed := now)], j);
    var es' := es[j := Entry(es[j].key, header, now, es[j].errors)];
    assert es[j := es[j].(lastUsed := now)][j := es'[j]] == es';
    var marked := Entry(es[j].key, es[j].remaining, now, es[j].errors + 1);
    assert es[j := es[j].(lastUsed := now)][j := marked] == es[j := marked];
    if header < 100 { NeverHandedOutAgain(es', events, j, later); }
  }

  /** The same key listed twice breaks this: the header of a call on the second entry refills the first. */
  lemma DuplicateKeyRevives(key: string, header: int, now: int)
    requires key != "" && header >= 100
    ensures
      var es := [Entry(key, 0, 0, 0), Entry(key, 1200, 0, 0)];
      !Healthy(es[0]) && Healthy(Call(es, now, Served(Some(header))).0[0])
  {
    var es := [Entry(key, 0, 0, 0), Entry(key, 1200, 0, 0)];
    PickIs(es, 1);
    var es' := Selected(es, now).0;
    IndexOfFirst(es', key);
    assert es'[0].key == key;
  }
}

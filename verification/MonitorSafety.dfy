/** What the deposit monitor guarantees over whole runs of polls. */
module MonitorSafety {
  import opened Sums
  import opened DepositMonitor
  import Ledger

  // ---- Chunks tile the scan window, and the confirmation re-check is silent inside it ----

  lemma {:induction false} LogsSplit(chain: Chain, from: nat, mid: nat, to: nat)
    requires from <= mid <= to + 1
    ensures LogsOf(chain, from, to) == (if mid == 0 then [] else LogsOf(chain, from, mid - 1)) + LogsOf(chain, mid, to)
    decreases mid - from
  {
    if from < mid {
      LogsSplit(chain, from + 1, mid, to);
    }
  }

  lemma {:induction false} LogsInRange(chain: Chain, from: nat, to: nat, log: Log)
    requires WellFormed(chain)
    ensures log in LogsOf(chain, from, to) <==> from <= log.block <= to && log in chain(log.block)
    decreases 1 + to - from
  {
    if from <= to {
      LogsInRange(chain, from + 1, to, log);
      if log in chain(from) {
        var i :| 0 <= i < |chain(from)| && chain(from)[i] == log;
        assert chain(from)[i].block == from;
      }
    }
  }

  /** A log inside the window always has its confirmations, so the re-check never drops a deposit. */
  lemma RecheckIsSilent(job: Job, from: nat, to: nat, log: Log)
    requires WellFormed(job.chain) && 1 <= from && to <= job.SafeHead()
    requires log in LogsOf(job.chain, from, to)
    ensures log.block + 3 <= job.head
  {
    LogsInRange(job.chain, from, to, log);
  }

  lemma {:induction false} LogOpsConcat(a: seq<Log>, b: seq<Log>, job: Job)
    ensures LogOps(a + b, job) == LogOps(a, job) + LogOps(b, job)
  {
    if b == [] {
      assert a + b == a;
    } else {
      var n := |b| - 1;
      assert (a + b)[..|a| + n] == a + b[..n];
      LogOpsConcat(a, b[..n], job);
    }
  }

  lemma HandleConcat(t: Ledger.Tables, a: seq<Log>, b: seq<Log>, job: Job)
    ensures Handle(t, a + b, job) == Handle(Handle(t, a, job), b, job)
  {
    LogOpsConcat(a, b, job);
    Ledger.RunConcat(t, LogOps(a, job), LogOps(b, job));
  }

  /** An undisturbed scan handles every log of every block of the window exactly once and in order, whatever
      the window's length, and leaves the cursor at its end. */
  lemma {:induction false} ChunksTileTheWindow(st: State, job: Job, from: nat)
    requires forall f :: job.poll.chunk(f) == Scanned(true, false)
    requires from <= job.SafeHead()
    ensures Scan(st, job, from)
            == State(Some(job.SafeHead()), Handle(st.tables, LogsOf(job.chain, from, job.SafeHead()), job))
    decreases job.SafeHead() + SCAN_CHUNK_BLOCKS - from
  {
    assert job.poll.chunk(from) == Scanned(true, false);
    if job.ChunkEnd(from) < job.SafeHead() {
      ChunksTileTheWindow(ScanChunk(st, job, from, true), job, from + SCAN_CHUNK_BLOCKS);
      OneMoreChunk(st, job, from);
    } else {
      LastChunk(st, job, from);
    }
  }

  // The first block a poll scans: after the cursor, or after the last 10000 blocks when it cannot be read or is more
  // than 20000 blocks behind.
  function FirstBlock(st: State, poll: Poll, head: nat): nat {
    var cursor :=
      if poll.cursorReads && st.cursor.Some? then st.cursor.value else if head > 10000 then head - 10000 else 0;
    1 + if head > cursor + 20000 then head - 10000 else cursor
  }

  /** What one poll does when nothing fails: it handles every log from its first block to the third last, in order,
      and leaves the cursor there. With less than three blocks on top of the first one it handles nothing. */
  lemma PollHandlesItsWindow(st: State, chain: Chain, min: real, poll: Poll)
    requires poll.head.Some? && poll.addresses.Some? && |poll.addresses.value| > 0
    requires forall f :: poll.chunk(f) == Scanned(true, false)
    ensures
      var head := poll.head.value;
      var first := FirstBlock(st, poll, head);
      var now := Check(st, chain, min, poll);
      if head < first + 3 then now.tables == st.tables
      else
        var job := Job(chain, poll.addresses.value, head, min, poll);
        now == State(Some(head - 3), Handle(st.tables, LogsOf(chain, first, head - 3), job))
  {
    hide *;
    var head := poll.head.value;
    var job := Job(chain, poll.addresses.value, head, min, poll);
    var first := FirstBlock(st, poll, head);
    FirstIsStart(st, poll, head);
    CheckScans(st, poll, job);
    ForwardKeepsTables(st, poll, head);
    SafeHeadIs(job);
    if head < first + 3 {
      ScanEnds(Forward(st, poll, head), job, first);
    } else {
      ChunksTileTheWindow(Forward(st, poll, head), job, first);
    }
  }

  /** Stopped after its first chunk, it has handled five blocks, or all there are, and the cursor says so. */
  lemma StoppedPollHandlesFiveBlocks(st: State, chain: Chain, min: real, poll: Poll)
    requires poll.head.Some? && poll.addresses.Some? && |poll.addresses.value| > 0
    requires FirstBlock(st, poll, poll.head.value) + 3 <= poll.head.value
    requires poll.chunk(FirstBlock(st, poll, poll.head.value)) == Scanned(true, true)
    ensures
      var head := poll.head.value;
      var first := FirstBlock(st, poll, head);
      var last := if first + 4 < head - 3 then first + 4 else head - 3;
      var job := Job(chain, poll.addresses.value, head, min, poll);
      Check(st, chain, min, poll) == State(Some(last), Handle(st.tables, LogsOf(chain, first, last), job))
  {
    hide *;
    var head := poll.head.value;
    var job := Job(chain, poll.addresses.value, head, min, poll);
    FirstIsStart(st, poll, head);
    CheckScans(st, poll, job);
    ForwardKeepsTables(st, poll, head);
    SafeHeadIs(job);
    ScanStops(Forward(st, poll, head), job, FirstBlock(st, poll, head));
  }

  /** A poll that knows no address, or whose first query fails, changes nothing, but for the cursor: more than 20000
      blocks behind, it is moved to 10000 behind the head, if it can be saved. */
  lemma EmptyPollOnlyForwards(st: State, chain: Chain, min: real, poll: Poll)
    requires poll.head.Some?
    requires poll.addresses.None? || poll.addresses.value == map[]
             || poll.chunk(FirstBlock(st, poll, poll.head.value)) == FilterFails
    ensures
      var head := poll.head.value;
      var behind := poll.cursorReads && st.cursor.Some? && st.cursor.value + 20000 < head;
      Check(st, chain, min, poll) == if behind && poll.forwardSaved then st.(cursor := Some(head - 10000)) else st
  {
    hide Scan, ScanChunk, Handle, LogsOf;
    var head := poll.head.value;
    FirstIsStart(st, poll, head);
    if poll.addresses.Some? && |poll.addresses.value| > 0 {
      var job := Job(chain, poll.addresses.value, head, min, poll);
      CheckScans(st, poll, job);
      QueryFails(Forward(st, poll, head), job, FirstBlock(st, poll, head));
    }
  }

  lemma QueryFails(st: State, job: Job, from: nat)
    requires job.poll.chunk(from) == FilterFails
    ensures Scan(st, job, from) == st
  {
  }

  lemma SafeHeadIs(job: Job)
    ensures job.SafeHead() == if job.head > 3 then job.head - 3 else 0
  {
  }

  lemma FirstIsStart(st: State, poll: Poll, head: nat)
    ensures 1 <= FirstBlock(st, poll, head) == StartFrom(st, poll, head) + 1
  {
  }

  lemma ScanStops(st: State, job: Job, from: nat)
    requires from <= job.SafeHead() && job.poll.chunk(from) == Scanned(true, true)
    ensures
      var last := if from + 4 < job.SafeHead() then from + 4 else job.SafeHead();
      Scan(st, job, from) == State(Some(last), Handle(st.tables, LogsOf(job.chain, from, last), job))
  {
  }

  lemma LastChunk(st: State, job: Job, from: nat)
    requires job.poll.chunk(from) == Scanned(true, false)
    requires from <= job.SafeHead() && job.ChunkEnd(from) == job.SafeHead()
    ensures Scan(st, job, from)
            == State(Some(job.SafeHead()), Handle(st.tables, LogsOf(job.chain, from, job.SafeHead()), job))
  {
    ScanGoesOn(st, job, from, true);
    ScanEnds(ScanChunk(st, job, from, true), job, from + SCAN_CHUNK_BLOCKS);
  }

  lemma OneMoreChunk(st: State, job: Job, from: nat)
    requires job.poll.chunk(from) == Scanned(true, false)
    requires from <= job.ChunkEnd(from) < job.SafeHead()
    ensures
      var mid := Handle(st.tables, job.ChunkLogs(from), job);
      var rest := LogsOf(job.chain, from + SCAN_CHUNK_BLOCKS, job.SafeHead());
      && Scan(st, job, from) == Scan(ScanChunk(st, job, from, true), job, from + SCAN_CHUNK_BLOCKS)
      && ScanChunk(st, job, from, true).tables == mid
      && Handle(st.tables, LogsOf(job.chain, from, job.SafeHead()), job) == Handle(mid, rest, job)
  {
    var next := from + SCAN_CHUNK_BLOCKS;
    ScanGoesOn(st, job, from, true);
    LogsSplit(job.chain, from, next, job.SafeHead());
    HandleConcat(st.tables, job.ChunkLogs(from), LogsOf(job.chain, next, job.SafeHead()), job);
  }

  lemma ScanGoesOn(st: State, job: Job, from: nat, saved: bool)
    requires from <= job.SafeHead() && job.poll.chunk(from) == Scanned(saved, false)
    ensures Scan(st, job, from) == Scan(ScanChunk(st, job, from, saved), job, from + SCAN_CHUNK_BLOCKS)
  {
  }

  lemma ScanEnds(st: State, job: Job, from: nat)
    requires from > job.SafeHead()
    ensures Scan(st, job, from) == st
  {
  }

  // ---- Every poll is a sequence of deposit transactions ----

  function ScanOps(job: Job, from: nat): seq<Ledger.Op>
    decreases job.SafeHead() + SCAN_CHUNK_BLOCKS - from
  {
    if from > job.SafeHead() then []
    else
      match job.poll.chunk(from)
      case FilterFails => []
      case Dies(after) => LogOps(job.ChunkLogs(from)[..Min(after, |job.ChunkLogs(from)|)], job)
      case Scanned(_, stopped) =>
        LogOps(job.ChunkLogs(from), job) + (if stopped then [] else ScanOps(job, from + SCAN_CHUNK_BLOCKS))
  }

  lemma {:induction false} ScanRunsItsOps(st: State, job: Job, from: nat)
    ensures Scan(st, job, from).tables == Ledger.Run(st.tables, ScanOps(job, from))
    decreases job.SafeHead() + SCAN_CHUNK_BLOCKS - from
  {
    if from <= job.SafeHead() && job.poll.chunk(from).Scanned? {
      var ops := LogOps(job.ChunkLogs(from), job);
      if job.poll.chunk(from).stopped {
        assert ops + [] == ops;
      } else {
        ScanRunsItsOps(ScanChunk(st, job, from, job.poll.chunk(from).saved), job, from + SCAN_CHUNK_BLOCKS);
        Ledger.RunConcat(st.tables, ops, ScanOps(job, from + SCAN_CHUNK_BLOCKS));
      }
    }
  }

  // A run: polls, and in between any other transactions of the gateway and the top-up flow.
  datatype Event = Polled(poll: Poll) | Other(op: Ledger.Op)

  function StepEvent(st: State, chain: Chain, min: real, e: Event): State {
    match e
    case Polled(poll) => Check(st, chain, min, poll)
    case Other(op) => st.(tables := Ledger.Apply(st.tables, op))
  }

  function RunEvents(st: State, chain: Chain, min: real, events: seq<Event>): State {
    if events == [] then st
    else StepEvent(RunEvents(st, chain, min, events[..|events| - 1]), chain, min, events[|events| - 1])
  }

  function EventOps(st: State, chain: Chain, min: real, e: Event): seq<Ledger.Op> {
    match e
    case Other(op) => [op]
    case Polled(poll) =>
      if poll.head.None? then []
      else
        var head := poll.head.value;
        if poll.addresses.None? || |poll.addresses.value| == 0 then []
        else ScanOps(Job(chain, poll.addresses.value, head, min, poll), StartFrom(st, poll, head) + 1)
  }

  // A poll that gets to its scan, without the test that there is anything to scan: if there is not, the scan
  // loop is not entered anyway.
  lemma CheckScans(st: State, poll: Poll, job: Job)
    requires poll.head.Some? && poll.addresses.Some? && |poll.addresses.value| > 0
    requires job == Job(job.chain, poll.addresses.value, poll.head.value, job.min, poll)
    ensures Check(st, job.chain, job.min, poll)
            == Scan(Forward(st, poll, job.head), job, StartFrom(st, poll, job.head) + 1)
  {
    var from := StartFrom(st, poll, job.head) + 1;
    if from > job.head {
      ScanEnds(Forward(st, poll, job.head), job, from);
    }
  }

  lemma CheckIdles(st: State, chain: Chain, min: real, poll: Poll)
    requires poll.head.Some? && (poll.addresses.None? || |poll.addresses.value| == 0)
    ensures Check(st, chain, min, poll) == Forward(st, poll, poll.head.value)
  {
  }

  lemma ForwardKeepsTables(st: State, poll: Poll, head: nat)
    ensures Forward(st, poll, head).tables == st.tables
  {
  }

  lemma EventRunsItsOps(st: State, chain: Chain, min: real, e: Event)
    ensures StepEvent(st, chain, min, e).tables == Ledger.Run(st.tables, EventOps(st, chain, min, e))
  {
    hide Scan, ScanOps;
    match e
    case Other(op) => Ledger.RunOne(st.tables, op);
    case Polled(poll) =>
      if poll.head.Some? {
        var head := poll.head.value;
        ForwardKeepsTables(st, poll, head);
        if poll.addresses.Some? && |poll.addresses.value| > 0 {
          var job := Job(chain, poll.addresses.value, head, min, poll);
          CheckScans(st, poll, job);
          ScanRunsItsOps(Forward(st, poll, head), job, StartFrom(st, poll, head) + 1);
        } else {
          CheckIdles(st, chain, min, poll);
        }
      }
  }

  function AllOps(st: State, chain: Chain, min: real, events: seq<Event>): seq<Ledger.Op> {
    if events == [] then []
    else
      var before := events[..|events| - 1];
      AllOps(st, chain, min, before) + EventOps(RunEvents(st, chain, min, before), chain, min, events[|events| - 1])
  }

  /** Any run of polls, however they fail, is a run of ledger transactions. */
  lemma {:induction false} EventsRunTheirOps(st: State, chain: Chain, min: real, events: seq<Event>)
    ensures RunEvents(st, chain, min, events).tables == Ledger.Run(st.tables, AllOps(st, chain, min, events))
  {
    if events != [] {
      var before := events[..|events| - 1];
      var last := events[|events| - 1];
      var mid := RunEvents(st, chain, min, before);
      EventsRunTheirOps(st, chain, min, before);
      EventRunsItsOps(mid, chain, min, last);
      Ledger.RunConcat(st.tables, AllOps(st, chain, min, before), EventOps(mid, chain, min, last));
    }
  }

  /** At most once over polls: replays, overlapping scans, bootstraps after a cursor error, fast-forwards and
      failing transactions never credit a hash twice. */
  lemma PollsCreditAtMostOnce(st: State, chain: Chain, min: real, events: seq<Event>, hash: string)
    requires Ledger.UniqueHashes(st.tables.topups)
    ensures
      var now := RunEvents(st, chain, min, events);
      && Ledger.UniqueHashes(now.tables.topups)
      && Ledger.TimesCredited(st.tables, AllOps(st, chain, min, events), hash)
         == (if Ledger.HasHash(now.tables.topups, hash) && !Ledger.HasHash(st.tables.topups, hash) then 1 else 0)
  {
    EventsRunTheirOps(st, chain, min, events);
    Ledger.AtMostOnce(st.tables, AllOps(st, chain, min, events), hash);
  }

  /** The monitor's share of every wallet: what a run loads into it is the user's new top-up rows, plus what
      the top-up flow credited; and the books stay balanced throughout. */
  lemma PollsKeepTheBooks(st: State, chain: Chain, min: real, events: seq<Event>, user: string)
    requires min > 0.0 && Ledger.Balanced(st.tables, user)
    requires forall e :: e in events && e.Other? ==> Ledger.Positive(e.op)
    ensures
      var now := RunEvents(st, chain, min, events);
      var credited := Ledger.Credited(st.tables, AllOps(st, chain, min, events), user);
      && Ledger.Balanced(now.tables, user)
      && Ledger.WalletOf(now.tables, user).totalLoaded - Ledger.WalletOf(st.tables, user).totalLoaded
         == Sum(Ledger.ToppedUp(user), now.tables.topups) - Sum(Ledger.ToppedUp(user), st.tables.topups) + credited
  {
    var ops := AllOps(st, chain, min, events);
    EventsRunTheirOps(st, chain, min, events);
    Ledger.LoadedIsAccountedFor(st.tables, ops, user);
    OpsArePositive(st, chain, min, events);
    Ledger.Conservation(st.tables, ops, user);
  }

  lemma {:induction false} LogOpsArePositive(logs: seq<Log>, job: Job)
    requires job.min > 0.0
    ensures Ledger.NonNegative(LogOps(logs, job))
  {
    if logs != [] {
      LogOpsArePositive(logs[..|logs| - 1], job);
    }
  }

  lemma {:induction false} ScanOpsArePositive(job: Job, from: nat)
    requires job.min > 0.0
    ensures Ledger.NonNegative(ScanOps(job, from))
    decreases job.SafeHead() + SCAN_CHUNK_BLOCKS - from
  {
    if from <= job.SafeHead() {
      hide LogOps, Ledger.NonNegative;
      LogOpsArePositive(job.ChunkLogs(from), job);
      NothingIsPositive();
      match job.poll.chunk(from)
      case FilterFails =>
      case Dies(after) => LogOpsArePositive(job.ChunkLogs(from)[..Min(after, |job.ChunkLogs(from)|)], job);
      case Scanned(_, stopped) =>
        ScanOpsArePositive(job, from + SCAN_CHUNK_BLOCKS);
        var rest := if stopped then [] else ScanOps(job, from + SCAN_CHUNK_BLOCKS);
        BothArePositive(LogOps(job.ChunkLogs(from), job), rest);
    } else {
      NothingIsPositive();
    }
  }

  lemma NothingIsPositive()
    ensures Ledger.NonNegative([])
  {
  }

  lemma BothArePositive(a: seq<Ledger.Op>, b: seq<Ledger.Op>)
    requires Ledger.NonNegative(a) && Ledger.NonNegative(b)
    ensures Ledger.NonNegative(a + b)
  {
  }

  lemma EventOpsArePositive(st: State, chain: Chain, min: real, e: Event)
    requires min > 0.0 && (e.Other? ==> Ledger.Positive(e.op))
    ensures Ledger.NonNegative(EventOps(st, chain, min, e))
  {
    NothingIsPositive();
    if e.Other? {
      assert Ledger.NonNegative([e.op]);
    }
    hide ScanOps, StartFrom, Ledger.NonNegative, Ledger.Positive;
    if e.Polled? && e.poll.head.Some? && e.poll.addresses.Some? {
      var head := e.poll.head.value;
      ScanOpsArePositive(Job(chain, e.poll.addresses.value, head, min, e.poll), StartFrom(st, e.poll, head) + 1);
    }
  }

  lemma {:induction false} OpsArePositive(st: State, chain: Chain, min: real, events: seq<Event>)
    requires min > 0.0
    requires forall e :: e in events && e.Other? ==> Ledger.Positive(e.op)
    ensures Ledger.NonNegative(AllOps(st, chain, min, events))
  {
    if events != [] {
      var before := events[..|events| - 1];
      OpsArePositive(st, chain, min, before);
      EventOpsArePositive(RunEvents(st, chain, min, before), chain, min, events[|events| - 1]);
    }
  }

  // ---- Everything behind the cursor is credited ----

  // The deposits that ought to be credited, given who owns which address in the end: a million units are a dollar.
  datatype Duty = Duty(chain: Chain, owners: map<string, string>, min: real)
  {
    predicate Due(log: Log) {
      log in chain(log.block) && log.topics >= 3 && log.to in owners && log.units as real >= min * 1000000.0
    }

    function Row(log: Log): Ledger.Topup {
      Ledger.Topup(if log.to in owners then owners[log.to] else "", log.units as real / 1000000.0, log.hash)
    }

    // At most one qualifying transfer per transaction hash, anywhere on the chain.
    ghost predicate OnePerHash() {
      forall k, l :: Due(k) && Due(l) && k.hash == l.hash ==> k == l
    }

    // Every qualifying transfer in the blocks (start, end] has its row.
    ghost predicate Covered(t: Ledger.Tables, start: nat, end: nat) {
      forall log :: Due(log) && start < log.block <= end ==> Row(log) in t.topups
    }

    // A row under the hash of a qualifying transfer is that transfer's row.
    ghost predicate Honest(t: Ledger.Tables) {
      forall row, log :: row in t.topups && Due(log) && log.hash == row.hash ==> row == Row(log)
    }

    // Every row beyond those of `base` is the row of a qualifying transfer above block `start`.
    ghost predicate Sourced(t: Ledger.Tables, base: seq<Ledger.Topup>, start: nat) {
      forall row :: row in t.topups && row !in base ==> IsOwed(row, start)
    }

    ghost predicate IsOwed(row: Ledger.Topup, start: nat) {
      exists log :: Due(log) && start < log.block && row == Row(log)
    }

    // The watched addresses of a poll agree with the owners, and every address that has received a
    // qualifying transfer within the poll's safe blocks is among them.
    ghost predicate Fits(job: Job) {
      && job.chain == chain && job.min == min
      && (forall a :: a in job.addresses ==> a in owners && owners[a] == job.addresses[a])
      && (forall log :: Due(log) && log.block <= job.SafeHead() ==> log.to in job.addresses)
    }

    // A credit of the poll commits if it matters: the transfer has no row when the poll begins, and some chunk from
    // its block on gets its cursor saved.
    ghost predicate Commits(job: Job, rows: seq<Ledger.Topup>) {
      forall log :: Due(log) && Row(log) !in rows ==>
        job.poll.credit(log).Commits? || NothingSavedFrom(job.poll, log.block)
    }

    // What handling logs keeps.
    ghost predicate Kept(t: Ledger.Tables, base: seq<Ledger.Topup>, start: nat) {
      WellFormed(chain) && OnePerHash() && Honest(t) && Sourced(t, base, start)
    }
  }

  // No chunk that reaches this block has its cursor saved.
  ghost predicate NothingSavedFrom(poll: Poll, block: nat) {
    forall from: nat :: block < from + SCAN_CHUNK_BLOCKS ==> poll.chunk(from) != Scanned(true, false)
                                                             && poll.chunk(from) != Scanned(true, true)
  }

  ghost predicate InWindow(log: Log, job: Job, start: nat) {
    start < log.block <= job.SafeHead() && log in job.chain(log.block)
  }

  lemma HandleOne(t: Ledger.Tables, log: Log, job: Job, duty: Duty, base: seq<Ledger.Topup>, low: nat)
    requires duty.Kept(t, base, low) && duty.Fits(job) && InWindow(log, job, low)
    ensures
      var t' := Ledger.Run(t, LogOp(log, job));
      && t.topups <= t'.topups
      && duty.Kept(t', base, low)
      && (duty.Due(log) && job.poll.credit(log).Commits? ==> duty.Row(log) in t'.topups)
  {
    var ops := LogOp(log, job);
    if ops == [] {
      assert !duty.Due(log);
    } else {
      assert duty.Due(log);
      Ledger.RunOne(t, ops[0]);
      if Ledger.HasHash(t.topups, log.hash) {
        var k :| 0 <= k < |t.topups| && t.topups[k].hash == log.hash;
        assert t.topups[k] in t.topups;
      } else {
        InsertRow(t, log, duty, base, low);
      }
    }
  }

  lemma InsertRow(t: Ledger.Tables, log: Log, duty: Duty, base: seq<Ledger.Topup>, low: nat)
    requires duty.Kept(t, base, low) && duty.Due(log) && low < log.block
    ensures
      forall t': Ledger.Tables :: t'.topups == t.topups + [duty.Row(log)] ==> duty.Kept(t', base, low)
  {
    assert duty.IsOwed(duty.Row(log), low);
  }

  lemma {:induction false} HandleCredits(t: Ledger.Tables, logs: seq<Log>, job: Job, duty: Duty,
                                         base: seq<Ledger.Topup>, low: nat)
    requires duty.Kept(t, base, low) && duty.Fits(job)
    requires forall log :: log in logs ==> InWindow(log, job, low)
    ensures
      var t' := Handle(t, logs, job);
      && t.topups <= t'.topups
      && duty.Kept(t', base, low)
      && forall log :: log in logs && duty.Due(log) && job.poll.credit(log).Commits? ==> duty.Row(log) in t'.topups
  {
    if logs != [] {
      var n := |logs| - 1;
      var log := logs[n];
      var mid := Handle(t, logs[..n], job);
      HandleCredits(t, logs[..n], job, duty, base, low);
      HandleOne(mid, log, job, duty, base, low);
      Ledger.RunConcat(t, LogOps(logs[..n], job), LogOp(log, job));
      assert logs == logs[..n] + [log];
    }
  }

  // The first n logs of a chunk.
  lemma ChunkKeeps(t: Ledger.Tables, job: Job, from: nat, n: nat, duty: Duty, base: seq<Ledger.Topup>, low: nat)
    requires duty.Kept(t, base, low) && duty.Fits(job)
    requires low < from <= job.SafeHead() && n <= |job.ChunkLogs(from)|
    ensures
      var logs := job.ChunkLogs(from)[..n];
      var t' := Handle(t, logs, job);
      && duty.Kept(t', base, low) && t.topups <= t'.topups
      && forall log :: log in logs && duty.Due(log) && job.poll.credit(log).Commits? ==> duty.Row(log) in t'.topups
  {
    forall log | log in job.ChunkLogs(from)[..n]
      ensures InWindow(log, job, low)
    {
      LogsInRange(job.chain, from, job.ChunkEnd(from), log);
    }
    HandleCredits(t, job.ChunkLogs(from)[..n], job, duty, base, low);
  }

  // The whole chunk.
  lemma WholeChunkKeeps(st: State, job: Job, from: nat, saved: bool, duty: Duty, base: seq<Ledger.Topup>, low: nat)
    requires duty.Kept(st.tables, base, low) && duty.Fits(job)
    requires low < from <= job.SafeHead()
    ensures
      var t' := ScanChunk(st, job, from, saved).tables;
      && duty.Kept(t', base, low) && st.tables.topups <= t'.topups
      && forall log :: log in job.ChunkLogs(from) && duty.Due(log) && job.poll.credit(log).Commits? ==>
           duty.Row(log) in t'.topups
  {
    var logs := job.ChunkLogs(from);
    assert logs[..|logs|] == logs;
    ChunkKeeps(st.tables, job, from, |logs|, duty, base, low);
  }

  // Every credit of the chunk that is still missing commits.
  ghost predicate Complete(t: Ledger.Tables, job: Job, from: nat, duty: Duty) {
    forall log :: duty.Due(log) && from <= log.block <= job.ChunkEnd(from) && duty.Row(log) !in t.topups ==>
      job.poll.credit(log).Commits?
  }

  function Max(a: nat, b: nat): nat { if a < b then b else a }

  lemma ChunkCovers(st: State, job: Job, from: nat, saved: bool, duty: Duty,
                    base: seq<Ledger.Topup>, low: nat, start: nat, high: nat)
    requires duty.Kept(st.tables, base, low) && duty.Fits(job) && Complete(st.tables, job, from, duty)
    requires low < from <= job.SafeHead() && from <= high + 1 && duty.Covered(st.tables, start, high)
    ensures
      var next := ScanChunk(st, job, from, saved);
      duty.Covered(next.tables, start, Max(high, job.ChunkEnd(from)))
  {
    WholeChunkKeeps(st, job, from, saved, duty, base, low);
    var t' := ScanChunk(st, job, from, saved).tables;
    forall log | duty.Due(log) && start < log.block <= Max(high, job.ChunkEnd(from))
      ensures duty.Row(log) in t'.topups
    {
      if log.block <= high {
        assert duty.Row(log) in st.tables.topups;
      } else {
        LogsInRange(job.chain, from, job.ChunkEnd(from), log);
      }
    }
  }

  // Every qualifying transfer from `start` up to the cursor has its row, and every new row is that of one above `low`.
  ghost predicate Safe(st: State, duty: Duty, base: seq<Ledger.Topup>, low: nat, start: nat) {
    && duty.Kept(st.tables, base, low)
    && st.cursor.Some? && low <= st.cursor.value
    && duty.Covered(st.tables, start, st.cursor.value)
  }

  lemma CoveredStays(duty: Duty, t: Ledger.Tables, t': Ledger.Tables, start: nat, lower: nat, end: nat)
    requires duty.Covered(t, start, end) && t.topups <= t'.topups && lower <= end
    ensures duty.Covered(t', start, lower)
  {
    forall log | duty.Due(log) && start < log.block <= lower
      ensures duty.Row(log) in t'.topups
    {
      assert duty.Row(log) in t.topups;
    }
  }

  // From here on no cursor is saved in this poll.
  ghost predicate Unsaved(job: Job, from: nat) {
    forall f: nat :: f >= from ==> job.poll.chunk(f) != Scanned(true, false) && job.poll.chunk(f) != Scanned(true, true)
  }

  // Only the tables change, and they keep what they keep.
  ghost predicate OnlyAdds(st: State, now: State, duty: Duty, base: seq<Ledger.Topup>, low: nat) {
    duty.Kept(now.tables, base, low) && st.tables.topups <= now.tables.topups && now.cursor == st.cursor
  }

  lemma {:induction false} UnsavedScanKeeps(st: State, job: Job, from: nat, duty: Duty,
                                            base: seq<Ledger.Topup>, low: nat)
    requires duty.Kept(st.tables, base, low) && duty.Fits(job) && low < from && Unsaved(job, from)
    ensures OnlyAdds(st, Scan(st, job, from), duty, base, low)
    decreases job.SafeHead() + SCAN_CHUNK_BLOCKS - from
  {
    hide Scan, ScanChunk;
    if from > job.SafeHead() {
      ScanEnds(st, job, from);
    } else {
      UnsavedChunkKeeps(st, job, from, duty, base, low);
      var fate := job.poll.chunk(from);
      if fate.Scanned? && !fate.stopped {
        ScanGoesOn(st, job, from, fate.saved);
        UnsavedScanKeeps(ScanChunk(st, job, from, fate.saved), job, from + SCAN_CHUNK_BLOCKS, duty, base, low);
      }
    }
  }

  lemma UnsavedChunkKeeps(st: State, job: Job, from: nat, duty: Duty, base: seq<Ledger.Topup>, low: nat)
    requires duty.Kept(st.tables, base, low) && duty.Fits(job) && low < from <= job.SafeHead() && Unsaved(job, from)
    ensures
      var fate := job.poll.chunk(from);
      OnlyAdds(st, if fate.Scanned? && !fate.stopped then ScanChunk(st, job, from, fate.saved) else Scan(st, job, from),
               duty, base, low)
  {
    match job.poll.chunk(from)
    case FilterFails =>
    case Dies(after) => ChunkKeeps(st.tables, job, from, Min(after, |job.ChunkLogs(from)|), duty, base, low);
    case Scanned(saved, _) => WholeChunkKeeps(st, job, from, saved, duty, base, low);
  }

  // A credit that fails where it matters is in a chunk from which on nothing is saved.
  lemma IncompleteIsUnsaved(t: Ledger.Tables, job: Job, from: nat, duty: Duty, rows: seq<Ledger.Topup>)
    requires duty.Commits(job, rows) && rows <= t.topups && !Complete(t, job, from, duty)
    ensures Unsaved(job, from)
  {
    var log :| duty.Due(log) && from <= log.block <= job.ChunkEnd(from) && duty.Row(log) !in t.topups
               && !job.poll.credit(log).Commits?;
    assert duty.Row(log) !in rows;
  }

  /** One scan, from at most one block above what is covered: whatever fails in it, everything up to the cursor it
      leaves is covered. */
  lemma {:induction false} ScanCovers(st: State, job: Job, from: nat, duty: Duty, rows: seq<Ledger.Topup>,
                                      base: seq<Ledger.Topup>, low: nat, start: nat, high: nat)
    requires Safe(st, duty, base, low, start) && duty.Fits(job)
    requires duty.Commits(job, rows) && rows <= st.tables.topups
    requires low < from <= high + 1 && st.cursor.value <= high && duty.Covered(st.tables, start, high)
    ensures Safe(Scan(st, job, from), duty, base, low, start)
    decreases job.SafeHead() + SCAN_CHUNK_BLOCKS - from
  {
    hide Scan, ScanChunk, Complete;
    if from > job.SafeHead() {
      ScanEnds(st, job, from);
    } else if !Complete(st.tables, job, from, duty) {
      IncompleteIsUnsaved(st.tables, job, from, duty, rows);
      UnsavedScanKeeps(st, job, from, duty, base, low);
      CoveredStays(duty, st.tables, Scan(st, job, from).tables, start, st.cursor.value, high);
    } else {
      ScanOneCovers(st, job, from, duty, rows, base, low, start, high);
      if job.poll.chunk(from).Scanned? && !job.poll.chunk(from).stopped {
        var saved := job.poll.chunk(from).saved;
        var next := ScanChunk(st, job, from, saved);
        ScanGoesOn(st, job, from, saved);
        if from + SCAN_CHUNK_BLOCKS <= job.SafeHead() {
          ScanCovers(next, job, from + SCAN_CHUNK_BLOCKS, duty, rows, base, low, start, Max(high, job.ChunkEnd(from)));
        } else {
          ScanEnds(next, job, from + SCAN_CHUNK_BLOCKS);
        }
      }
    }
  }

  // A chunk whose credits commit: either the scan ends in it, or all is well for the next one.
  lemma ScanOneCovers(st: State, job: Job, from: nat, duty: Duty, rows: seq<Ledger.Topup>,
                      base: seq<Ledger.Topup>, low: nat, start: nat, high: nat)
    requires Safe(st, duty, base, low, start) && duty.Fits(job) && rows <= st.tables.topups
    requires Complete(st.tables, job, from, duty)
    requires low < from <= high + 1 && st.cursor.value <= high && duty.Covered(st.tables, start, high)
    requires from <= job.SafeHead()
    ensures
      var fate := job.poll.chunk(from);
      if fate.Scanned? && !fate.stopped then
        var next := ScanChunk(st, job, from, fate.saved);
        var high' := Max(high, job.ChunkEnd(from));
        && Safe(next, duty, base, low, start) && rows <= next.tables.topups
        && next.cursor.value <= high' && duty.Covered(next.tables, start, high')
      else Safe(Scan(st, job, from), duty, base, low, start)
  {
    var fate := job.poll.chunk(from);
    match fate
    case FilterFails =>
      CoveredStays(duty, st.tables, st.tables, start, st.cursor.value, high);
    case Dies(after) =>
      var n := Min(after, |job.ChunkLogs(from)|);
      ChunkKeeps(st.tables, job, from, n, duty, base, low);
      CoveredStays(duty, st.tables, Handle(st.tables, job.ChunkLogs(from)[..n], job), start, st.cursor.value, high);
    case Scanned(saved, stopped) =>
      var next := ScanChunk(st, job, from, saved);
      WholeChunkKeeps(st, job, from, saved, duty, base, low);
      ChunkCovers(st, job, from, saved, duty, base, low, start, high);
      CoveredStays(duty, next.tables, next.tables, start, next.cursor.value, Max(high, job.ChunkEnd(from)));
  }

  // A poll that may fail anywhere, but if it reads the cursor, need not fast-forward; if it cannot read it, the
  // bootstrap window reaches back to it, and not below `low`; and its credits commit where it matters. Other
  // transactions may do anything but insert top-up rows.
  ghost predicate Sound(st: State, e: Event, duty: Duty, low: nat) {
    match e
    case Other(op) => !op.CreditDeposit?
    case Polled(poll) => poll.head.Some? ==> SoundPoll(st, poll, duty, low)
  }

  ghost predicate SoundPoll(st: State, poll: Poll, duty: Duty, low: nat)
    requires poll.head.Some?
  {
    && st.cursor.Some?
    && (if poll.cursorReads then poll.head.value <= st.cursor.value + 20000
        else
          && poll.head.value <= st.cursor.value + 10000
          && (low == 0 || low + 10000 <= poll.head.value))
    && (poll.addresses.Some? && |poll.addresses.value| > 0 ==>
          var job := Job(duty.chain, poll.addresses.value, poll.head.value, duty.min, poll);
          duty.Fits(job) && duty.Commits(job, st.tables.topups))
  }

  ghost predicate SoundRun(st: State, events: seq<Event>, duty: Duty, low: nat)
    decreases |events|
  {
    events == [] ||
    var before := events[..|events| - 1];
    && SoundRun(st, before, duty, low)
    && Sound(RunEvents(st, duty.chain, duty.min, before), events[|events| - 1], duty, low)
  }

  lemma EventCovers(st: State, e: Event, duty: Duty, base: seq<Ledger.Topup>, low: nat, start: nat)
    requires Safe(st, duty, base, low, start) && Sound(st, e, duty, low)
    ensures Safe(StepEvent(st, duty.chain, duty.min, e), duty, base, low, start)
  {
    hide Scan, Check, Forward, StartFrom, TooFarBehind;
    match e
    case Other(op) => OtherCovers(st, op, duty, base, low, start);
    case Polled(poll) =>
      if poll.head.Some? && poll.addresses.Some? && |poll.addresses.value| > 0 {
        var from := StartFrom(st, poll, poll.head.value) + 1;
        PollScans(st, poll, duty, low);
        var job := Job(duty.chain, poll.addresses.value, poll.head.value, duty.min, poll);
        ScanCovers(st, job, from, duty, st.tables.topups, base, low, start, st.cursor.value);
      } else {
        PollIdles(st, poll, duty, low);
      }
  }

  lemma PollScans(st: State, poll: Poll, duty: Duty, low: nat)
    requires Sound(st, Polled(poll), duty, low) && st.cursor.Some? && low <= st.cursor.value
    requires poll.head.Some? && poll.addresses.Some? && |poll.addresses.value| > 0
    ensures
      var job := Job(duty.chain, poll.addresses.value, poll.head.value, duty.min, poll);
      var from := StartFrom(st, poll, poll.head.value) + 1;
      && StepEvent(st, duty.chain, duty.min, Polled(poll)) == Scan(st, job, from)
      && low < from <= st.cursor.value + 1
  {
    hide Scan;
    CheckScans(st, poll, Job(duty.chain, poll.addresses.value, poll.head.value, duty.min, poll));
    CursorIsKept(st, poll, duty, low);
  }

  lemma PollIdles(st: State, poll: Poll, duty: Duty, low: nat)
    requires Sound(st, Polled(poll), duty, low) && st.cursor.Some? && low <= st.cursor.value
    requires poll.head.None? || poll.addresses.None? || |poll.addresses.value| == 0
    ensures StepEvent(st, duty.chain, duty.min, Polled(poll)) == st
  {
    if poll.head.Some? {
      CheckIdles(st, duty.chain, duty.min, poll);
      CursorIsKept(st, poll, duty, low);
    }
  }

  // The scan starts from the cursor, or from below it.
  lemma CursorIsKept(st: State, poll: Poll, duty: Duty, low: nat)
    requires poll.head.Some? && SoundPoll(st, poll, duty, low) && low <= st.cursor.value
    ensures Forward(st, poll, poll.head.value) == st
    ensures low <= StartFrom(st, poll, poll.head.value) <= st.cursor.value
  {
  }

  lemma OtherCovers(st: State, op: Ledger.Op, duty: Duty, base: seq<Ledger.Topup>, low: nat, start: nat)
    requires Safe(st, duty, base, low, start) && !op.CreditDeposit?
    ensures Safe(st.(tables := Ledger.Apply(st.tables, op)), duty, base, low, start)
  {
    assert Ledger.Apply(st.tables, op).topups == st.tables.topups;
    CoveredStays(duty, st.tables, Ledger.Apply(st.tables, op), start, st.cursor.value, st.cursor.value);
  }

  /** Everything behind the cursor is credited: in every run of polls with any heads, failing or dying at any
      point, every qualifying transfer above the starting block and up to the cursor has its row, to its owner and
      for its amount, and every new row is that of a qualifying transfer. Cursor reads may fail as long as the
      bootstrap window reaches back to the cursor, and down to no less than `low`; credits may fail for transfers
      that have their row, and for those no later chunk of the poll gets its cursor saved. Without failing reads
      `low` is the starting block, and the cursor never falls below it. */
  lemma {:induction false} EverythingBehindTheCursor(
      st: State, events: seq<Event>, duty: Duty, low: nat, start: nat)
    requires WellFormed(duty.chain) && duty.OnePerHash()
    requires st.cursor == Some(start) && low <= start && duty.Honest(st.tables)
    requires SoundRun(st, events, duty, low)
    ensures Safe(RunEvents(st, duty.chain, duty.min, events), duty, st.tables.topups, low, start)
  {
    if events != [] {
      hide Safe, Sound;
      var before := events[..|events| - 1];
      EverythingBehindTheCursor(st, before, duty, low, start);
      EventCovers(RunEvents(st, duty.chain, duty.min, before), events[|events| - 1], duty, st.tables.topups,
                  low, start);
    }
  }

  /** One poll never moves a cursor it could read back, and never past the head less three confirmations. */
  lemma CursorIsMonotone(st: State, chain: Chain, min: real, poll: Poll)
    requires poll.head.Some? && poll.cursorReads && st.cursor.Some?
    ensures
      var now := Check(st, chain, min, poll).cursor;
      && now.Some? && st.cursor.value <= now.value
      && (now == st.cursor || now.value + 3 <= poll.head.value)
  {
    hide Scan;
    var head := poll.head.value;
    if poll.addresses.Some? && |poll.addresses.value| > 0 {
      var job := Job(chain, poll.addresses.value, head, min, poll);
      CheckScans(st, poll, job);
      ScanMovesForward(Forward(st, poll, head), job, StartFrom(st, poll, head) + 1);
    } else {
      CheckIdles(st, chain, min, poll);
    }
  }

  lemma {:induction false} ScanMovesForward(st: State, job: Job, from: nat)
    requires st.cursor.Some? && st.cursor.value < from
    ensures
      var now := Scan(st, job, from).cursor;
      && now.Some? && st.cursor.value <= now.value
      && (now == st.cursor || now.value + CONFIRMATIONS <= job.head)
    decreases job.SafeHead() + SCAN_CHUNK_BLOCKS - from
  {
    if from <= job.SafeHead() && job.poll.chunk(from).Scanned? {
      var next := ScanChunk(st, job, from, job.poll.chunk(from).saved);
      ScanMovesForward(next, job, from + SCAN_CHUNK_BLOCKS);
    }
  }
}

/** The USDC deposit monitor: one poll scans the chain in chunks from the persisted cursor to the newest
    block with enough confirmations, crediting each matching transfer, with a failure possible anywhere. */
module DepositMonitor {
  import opened Sums
  import Ledger

  const CONFIRMATIONS: nat := 3
  const BOOTSTRAP_BLOCKS: nat := 10000
  const MAX_CATCH_UP_BLOCKS: nat := 20000
  const SCAN_CHUNK_BLOCKS: nat := 5

  // A USDC Transfer log, the index-th of its block; amounts are in millionths of a dollar.
  datatype Log = Log(block: nat, index: nat, topics: nat, to: string, units: nat, hash: string)

  // The Transfer logs of each block; blocks with three confirmations do not change.
  type Chain = nat -> seq<Log>

  // How scanning one chunk ends: the log query fails, the process dies after handling some of the logs,
  // or all are handled, the cursor is saved or not, and the monitor is stopped or goes on.
  datatype ChunkFate = FilterFails | Dies(after: nat) | Scanned(saved: bool, stopped: bool)

  // Everything one poll meets: the head block, whether reading the cursor and saving it after a
  // fast-forward succeed, the watched addresses, and the fate of every chunk and credit transaction.
  datatype Poll = Poll(
    head: Option<nat>,
    cursorReads: bool,
    forwardSaved: bool,
    addresses: Option<map<string, string>>,
    chunk: nat -> ChunkFate,
    credit: Log -> Ledger.TxFate)

  datatype State = State(cursor: Option<nat>, tables: Ledger.Tables)

  function Amount(log: Log): real { log.units as real / 1000000.0 }

  ghost predicate WellFormed(chain: Chain) {
    forall b, i :: 0 <= i < |chain(b)| ==> chain(b)[i].block == b && chain(b)[i].index == i
  }

  // What the scan of one poll works with: `head` is the head block read at its start.
  datatype Job = Job(chain: Chain, addresses: map<string, string>, head: nat, min: real, poll: Poll)
  {
    // The newest block with enough confirmations.
    function SafeHead(): nat { if head > CONFIRMATIONS then head - CONFIRMATIONS else 0 }

    function ChunkEnd(from: nat): nat { Min(from + SCAN_CHUNK_BLOCKS - 1, SafeHead()) }

    function ChunkLogs(from: nat): seq<Log> { LogsOf(chain, from, ChunkEnd(from)) }
  }

  // processLog, as the ledger operation it comes to.
  function LogOp(log: Log, job: Job): seq<Ledger.Op> {
    if log.topics < 3 || log.to !in job.addresses || Amount(log) < job.min || log.block + CONFIRMATIONS > job.head
    then []
    else [Ledger.CreditDeposit(job.addresses[log.to], Amount(log), log.hash, job.poll.credit(log))]
  }

  function LogOps(logs: seq<Log>, job: Job): seq<Ledger.Op> {
    if logs == [] then [] else LogOps(logs[..|logs| - 1], job) + LogOp(logs[|logs| - 1], job)
  }

  function Handle(t: Ledger.Tables, logs: seq<Log>, job: Job): Ledger.Tables {
    Ledger.Run(t, LogOps(logs, job))
  }

  // eth_getLogs over a block range, both ends included.
  function LogsOf(chain: Chain, from: nat, to: nat): seq<Log>
    decreases 1 + to - from
  {
    if from > to then [] else chain(from) + LogsOf(chain, from + 1, to)
  }

  function Min(a: nat, b: nat): nat { if a < b then a else b }

  // The scan loop from one chunk on.
  function Scan(st: State, job: Job, from: nat): State
    decreases job.SafeHead() + SCAN_CHUNK_BLOCKS - from
  {
    if from > job.SafeHead() then st
    else
      match job.poll.chunk(from)
      case FilterFails => st
      case Dies(after) =>
        st.(tables := Handle(st.tables, job.ChunkLogs(from)[..Min(after, |job.ChunkLogs(from)|)], job))
      case Scanned(saved, stopped) =>
        var next := ScanChunk(st, job, from, saved);
        if stopped then next else Scan(next, job, from + SCAN_CHUNK_BLOCKS)
  }

  function ScanChunk(st: State, job: Job, from: nat, saved: bool): State {
    State(if saved then Some(job.ChunkEnd(from)) else st.cursor, Handle(st.tables, job.ChunkLogs(from), job))
  }

  // getCursor: a missing row and a failing query are treated alike.
  function Cursor(st: State, poll: Poll, head: nat): nat {
    if poll.cursorReads && st.cursor.Some? then st.cursor.value
    else if head > BOOTSTRAP_BLOCKS then head - BOOTSTRAP_BLOCKS else 0
  }

  predicate TooFarBehind(cursor: nat, head: nat) {
    head > cursor && head - cursor > MAX_CATCH_UP_BLOCKS
  }

  // Where the scan starts from: the cursor, unless it is too far behind the head.
  function StartFrom(st: State, poll: Poll, head: nat): nat {
    var read := Cursor(st, poll, head);
    if TooFarBehind(read, head) then head - BOOTSTRAP_BLOCKS else read
  }

  function Forward(st: State, poll: Poll, head: nat): State {
    if TooFarBehind(Cursor(st, poll, head), head) && poll.forwardSaved
    then st.(cursor := Some(head - BOOTSTRAP_BLOCKS)) else st
  }

  // checkForDeposits
  function Check(st: State, chain: Chain, min: real, poll: Poll): State {
    if poll.head.None? then st
    else
      var head := poll.head.value;
      var cursor := StartFrom(st, poll, head);
      if cursor + 1 > head || poll.addresses.None? || |poll.addresses.value| == 0 then Forward(st, poll, head)
      else Scan(Forward(st, poll, head), Job(chain, poll.addresses.value, head, min, poll), cursor + 1)
  }

  class Monitor {
    const pg: Ledger.PostgresStore
    const minDeposit: real
    var cursor: Option<nat>

    function Now(): State
      reads this, pg
    {
      State(cursor, pg.State())
    }

    constructor (pg: Ledger.PostgresStore, minDeposit: real)
      ensures this.pg == pg && cursor == None
      ensures this.minDeposit == if minDeposit > 0.0 then minDeposit else 1.0
    {
      this.pg := pg;
      this.minDeposit := if minDeposit <= 0.0 then 1.0 else minDeposit;
      cursor := None;
    }

    method ProcessLog(log: Log, job: Job)
      requires job.min == minDeposit
      modifies pg
      ensures pg.State() == Ledger.Run(old(pg.State()), LogOp(log, job))
    {
      if log.topics < 3 { return; }
      if log.to !in job.addresses { return; }
      var amount := log.units as real / 1000000.0;
      if amount < minDeposit { return; }
      if log.block + CONFIRMATIONS > job.head { return; }
      ghost var op := Ledger.CreditDeposit(job.addresses[log.to], amount, log.hash, job.poll.credit(log));
      assert Ledger.Run(pg.State(), [op][..0]) == pg.State();
      pg.CreditDeposit(job.addresses[log.to], amount, log.hash, job.poll.credit(log));
    }

    method ProcessLogs(logs: seq<Log>, job: Job)
      requires job.min == minDeposit
      modifies pg
      ensures pg.State() == Handle(old(pg.State()), logs, job)
    {
      ghost var before := pg.State();
      for i := 0 to |logs|
        invariant pg.State() == Handle(before, logs[..i], job)
      {
        ProcessLog(logs[i], job);
        assert logs[..i + 1][..i] == logs[..i];
        Ledger.RunConcat(before, LogOps(logs[..i], job), LogOp(logs[i], job));
      }
      assert logs[..|logs|] == logs;
    }

    // The chunk loop of checkForDeposits.
    method ScanForward(job: Job, from: nat)
      requires job.min == minDeposit
      modifies this, pg
      ensures Now() == Scan(old(Now()), job, from)
    {
      hide Handle;
      var safeHead := 0;
      if job.head > CONFIRMATIONS { safeHead := job.head - CONFIRMATIONS; }
      var chunkFrom := from;
      while chunkFrom <= safeHead
        invariant Scan(old(Now()), job, from) == Scan(Now(), job, chunkFrom)
        decreases safeHead + SCAN_CHUNK_BLOCKS - chunkFrom
      {
        var chunkTo := chunkFrom + SCAN_CHUNK_BLOCKS - 1;
        if chunkTo > safeHead { chunkTo := safeHead; }
        var fate := job.poll.chunk(chunkFrom);
        if fate.FilterFails? { return; }
        var logs := LogsOf(job.chain, chunkFrom, chunkTo);
        if fate.Dies? {
          ProcessLogs(logs[..Min(fate.after, |logs|)], job);
          return;
        }
        ProcessLogs(logs, job);
        if fate.saved { cursor := Some(chunkTo); }
        if fate.stopped { return; }
        chunkFrom := chunkFrom + SCAN_CHUNK_BLOCKS;
      }
    }

    /** One poll, loop and all, does what the specification function Check says. */
    method CheckForDeposits(chain: Chain, poll: Poll)
      modifies this, pg
      ensures Now() == Check(old(Now()), chain, minDeposit, poll)
    {
      hide Scan, Handle;
      if poll.head.None? { return; }
      var currentBlock := poll.head.value;
      var lastProcessed := 0;
      if poll.cursorReads && cursor.Some? {
        lastProcessed := cursor.value;
      } else if currentBlock > BOOTSTRAP_BLOCKS {
        lastProcessed := currentBlock - BOOTSTRAP_BLOCKS;
      }
      if currentBlock > lastProcessed && currentBlock - lastProcessed > MAX_CATCH_UP_BLOCKS {
        lastProcessed := currentBlock - BOOTSTRAP_BLOCKS;
        if poll.forwardSaved { cursor := Some(lastProcessed); }
      }
      var from := lastProcessed + 1;
      if from > currentBlock { return; }
      if poll.addresses.None? { return; }
      if |poll.addresses.value| == 0 { return; }
      ScanForward(Job(chain, poll.addresses.value, currentBlock, minDeposit, poll), from);
    }
  }
}

/** The monitor's conditions are needed: without each of them a deposit is skipped for good. */
module MonitorEdges {
  import opened Sums
  import opened DepositMonitor
  import opened MonitorSafety
  import Ledger

  function OneBlock(block: nat, logs: seq<Log>): Chain {
    (b: nat) => if b == block then logs else []
  }

  // A chain whose block 1 holds these logs, scanned once by a poll that sees head 4 and saves its cursor.
  function FirstPoll(fate: Ledger.TxFate): Poll {
    Poll(Some(4), true, true, Some(map["address" := "user"]), (f: nat) => Scanned(true, false), (l: Log) => fate)
  }

  function Fresh(): State { State(Some(0), Ledger.Tables(map[], [], [])) }

  function Deposit(index: nat, units: nat): Log { Log(1, index, 3, "address", units, "hash") }

  function DutyOf(logs: seq<Log>): Duty { Duty(OneBlock(1, logs), map["address" := "user"], 1.0) }

  lemma FirstPollHandles(logs: seq<Log>, fate: Ledger.TxFate)
    ensures
      var job := Job(OneBlock(1, logs), map["address" := "user"], 4, 1.0, FirstPoll(fate));
      Check(Fresh(), OneBlock(1, logs), 1.0, FirstPoll(fate)) == State(Some(1), Handle(Fresh().tables, logs, job))
  {
    var chain := OneBlock(1, logs);
    var job := Job(chain, map["address" := "user"], 4, 1.0, FirstPoll(fate));
    assert "address" in job.addresses;
    assert LogsOf(chain, 1, 1) == logs by {
      assert LogsOf(chain, 2, 1) == [];
    }
    assert Scan(Fresh(), job, 1) == Scan(ScanChunk(Fresh(), job, 1, true), job, 6);
  }

  /** A credit transaction that fails while the cursor is saved loses the deposit: its block is behind the
      cursor and its hash is not in the table. */
  lemma FailedCreditIsLost(units: nat, fate: Ledger.TxFate)
    requires units >= 1000000 && !fate.Commits?
    ensures
      var log := Deposit(0, units);
      var duty := DutyOf([log]);
      var now := Check(Fresh(), duty.chain, 1.0, FirstPoll(fate));
      && WellFormed(duty.chain) && duty.OnePerHash() && duty.Due(log)
      && now.cursor == Some(log.block) && !Ledger.HasHash(now.tables.topups, log.hash)
  {
    var log := Deposit(0, units);
    FirstPollHandles([log], fate);
    OneLogIsDue(log);
    var job := Job(DutyOf([log]).chain, map["address" := "user"], 4, 1.0, FirstPoll(fate));
    FailingCreditsAddNothing(Fresh().tables, [log], job);
  }

  lemma OneLogIsDue(log: Log)
    requires log == Deposit(0, log.units) && log.units >= 1000000
    ensures
      var duty := DutyOf([log]);
      WellFormed(duty.chain) && duty.OnePerHash() && duty.Due(log)
  {
    assert log in OneBlock(1, [log])(1);
  }

  lemma {:induction false} FailingCreditsAddNothing(t: Ledger.Tables, logs: seq<Log>, job: Job)
    requires forall log :: !job.poll.credit(log).Commits?
    ensures Handle(t, logs, job).topups == t.topups
  {
    hide Handle;
    if logs == [] {
      HandleNone(t, job);
    } else {
      var n := |logs| - 1;
      FailingCreditsAddNothing(t, logs[..n], job);
      HandleConcat(t, logs[..n], [logs[n]], job);
      HandleSingle(Handle(t, logs[..n], job), logs[n], job);
      assert logs == logs[..n] + [logs[n]];
    }
  }

  lemma HandleNone(t: Ledger.Tables, job: Job)
    ensures Handle(t, [], job) == t
  {
  }

  lemma HandleSingle(t: Ledger.Tables, log: Log, job: Job)
    ensures Handle(t, [log], job) == if LogOp(log, job) == [] then t else Ledger.Apply(t, LogOp(log, job)[0])
  {
    assert LogOps([log][..0], job) == [];
    assert LogOps([log], job) == LogOp(log, job);
    if LogOp(log, job) != [] {
      Ledger.RunOne(t, LogOp(log, job)[0]);
    }
  }

  /** Two qualifying transfers in one transaction: the unique index lets only the first one in. */
  lemma SecondTransferIsLost(units: nat, more: nat)
    requires units >= 1000000 && more >= 1000000 && units != more
    ensures
      var logs := [Deposit(0, units), Deposit(1, more)];
      var duty := DutyOf(logs);
      var now := Check(Fresh(), duty.chain, 1.0, FirstPoll(Ledger.Commits));
      && duty.Due(logs[0]) && duty.Due(logs[1])
      && now.cursor == Some(1) && now.tables.topups == [duty.Row(logs[0])]
      && duty.Row(logs[1]) !in now.tables.topups
  {
    hide Handle, Check;
    var logs := [Deposit(0, units), Deposit(1, more)];
    var job := Job(OneBlock(1, logs), map["address" := "user"], 4, 1.0, FirstPoll(Ledger.Commits));
    FirstPollHandles(logs, Ledger.Commits);
    TwoLogsAreDue(logs);
    assert logs == [logs[0]] + [logs[1]];
    HandleConcat(Fresh().tables, [logs[0]], [logs[1]], job);
    FirstIsTaken(logs[0], job);
    var mid := Handle(Fresh().tables, [logs[0]], job);
    assert mid.topups[0].hash == "hash";
    DuplicateIsIgnored(mid, logs[1], job);
    assert units as real / 1000000.0 != more as real / 1000000.0;
  }

  lemma FirstIsTaken(log: Log, job: Job)
    requires log == Deposit(0, log.units) && log.units >= 1000000
    requires job == Job(job.chain, map["address" := "user"], 4, 1.0, FirstPoll(Ledger.Commits))
    ensures Handle(Fresh().tables, [log], job).topups == [Ledger.Topup("user", log.units as real / 1000000.0, "hash")]
  {
    hide Handle;
    HandleSingle(Fresh().tables, log, job);
    assert "address" in job.addresses;
  }

  lemma DuplicateIsIgnored(t: Ledger.Tables, log: Log, job: Job)
    requires Ledger.HasHash(t.topups, log.hash)
    ensures Handle(t, [log], job) == t
  {
    hide Handle;
    HandleSingle(t, log, job);
  }

  lemma TwoLogsAreDue(logs: seq<Log>)
    requires |logs| == 2 && logs[0] == Deposit(0, logs[0].units) && logs[1] == Deposit(1, logs[1].units)
    requires logs[0].units >= 1000000 && logs[1].units >= 1000000
    ensures DutyOf(logs).Due(logs[0]) && DutyOf(logs).Due(logs[1])
  {
    assert logs[0] in OneBlock(1, logs)(1) && logs[1] in OneBlock(1, logs)(1);
  }

  /** A failing cursor read is taken for a missing cursor: the scan restarts at the bootstrap window, and the
      saved cursor then hides every older block, scanned or not. */
  lemma FailedCursorReadSkipsBlocks(cursor: nat, head: nat, tables: Ledger.Tables, chain: Chain, min: real,
                                    addresses: map<string, string>, credit: Log -> Ledger.TxFate)
    requires addresses != map[] && cursor + 10000 < head
    ensures
      var poll := Poll(Some(head), false, true, Some(addresses), (f: nat) => Scanned(true, true), credit);
      var now := Check(State(Some(cursor), tables), chain, min, poll);
      var job := Job(chain, addresses, head, min, poll);
      var first := head - 10000 + 1;
      && now.cursor.Some? && now.cursor.value >= first > cursor + 1
      && now.tables == Handle(tables, LogsOf(chain, first, now.cursor.value), job)
  {
    var poll := Poll(Some(head), false, true, Some(addresses), (f: nat) => Scanned(true, true), credit);
    var st := State(Some(cursor), tables);
    assert Cursor(st, poll, head) == head - 10000;
    assert |addresses| != 0;
  }

  /** A fast-forward skips blocks likewise: the new cursor hides everything older than the bootstrap window. */
  lemma FastForwardSkipsBlocks(cursor: nat, head: nat, tables: Ledger.Tables, chain: Chain, min: real,
                               addresses: map<string, string>, credit: Log -> Ledger.TxFate)
    requires addresses != map[] && cursor + 20000 < head
    ensures
      var poll := Poll(Some(head), true, true, Some(addresses), (f: nat) => Scanned(true, true), credit);
      var now := Check(State(Some(cursor), tables), chain, min, poll);
      var job := Job(chain, addresses, head, min, poll);
      var first := head - 10000 + 1;
      && now.cursor.Some? && now.cursor.value >= first > cursor + 1
      && now.tables == Handle(tables, LogsOf(chain, first, now.cursor.value), job)
  {
    var poll := Poll(Some(head), true, true, Some(addresses), (f: nat) => Scanned(true, true), credit);
    var st := State(Some(cursor), tables);
    assert StartFrom(st, poll, head) == head - 10000;
    assert |addresses| != 0;
  }

  /** A deposit to an address that is registered only after its block was scanned is behind the cursor and
      never looked at again. */
  lemma LateAddressIsLost(to: string, units: nat)
    requires to != "address" && units >= 1000000
    ensures
      var log := Log(1, 0, 3, to, units, "hash");
      var duty := Duty(OneBlock(1, [log]), map["address" := "user", to := "late"], 1.0);
      var now := Check(Fresh(), duty.chain, 1.0, FirstPoll(Ledger.Commits));
      duty.Due(log) && now.cursor == Some(log.block) && now.tables == Fresh().tables
  {
    hide Handle, Check;
    var log := Log(1, 0, 3, to, units, "hash");
    var job := Job(OneBlock(1, [log]), map["address" := "user"], 4, 1.0, FirstPoll(Ledger.Commits));
    FirstPollHandles([log], Ledger.Commits);
    HandleSingle(Fresh().tables, log, job);
    assert log in OneBlock(1, [log])(1);
  }
}

/** The Postgres ledger: wallets, top-up rows and usage rows of all users. Each operation is one transaction,
    so a sequence of operations is any interleaving of the gateway, the deposit monitor and the top-up flow.
 */
module Ledger {
  import opened Sums

  datatype Wallet = Wallet(balance: real, held: real, totalLoaded: real, totalSpent: real)

  datatype Topup = Topup(user: string, amount: real, hash: string)

  datatype Usage = Usage(user: string, key: string, cost: real, completed: bool)

  datatype Tables = Tables(wallets: map<string, Wallet>, topups: seq<Topup>, usage: seq<Usage>)

  // Which statement of a transaction fails, if any. A failed transaction is rolled back.
  datatype TxFate = BeginFails | InsertFails | WalletFails | CommitFails | Commits

  datatype Op =
    | EnsureWallet(user: string)
    | CreditWallet(user: string, amount: real)
    | CreditDeposit(user: string, amount: real, hash: string, fate: TxFate)
    | FinalizeDeduction(user: string, key: string, cost: real, fate: TxFate)

  predicate HasHash(topups: seq<Topup>, hash: string) {
    exists i :: 0 <= i < |topups| && topups[i].hash == hash
  }

  function Zero(): Wallet { Wallet(0.0, 0.0, 0.0, 0.0) }

  function WalletOf(t: Tables, user: string): Wallet {
    if user in t.wallets then t.wallets[user] else Zero()
  }

  function Load(w: Wallet, amount: real): Wallet {
    w.(balance := w.balance + amount, totalLoaded := w.totalLoaded + amount)
  }

  // Would this deposit transaction commit: no statement fails and the unique index lets the row in.
  predicate Takes(t: Tables, op: Op) {
    op.CreditDeposit? && op.fate.Commits? && !HasHash(t.topups, op.hash)
  }

  // Would this settlement charge: no statement fails and the conditional UPDATE hits a row.
  predicate Charges(t: Tables, op: Op) {
    && op.FinalizeDeduction? && op.fate.Commits?
    && op.user in t.wallets && t.wallets[op.user].balance >= op.cost
  }

  function Apply(t: Tables, op: Op): Tables {
    match op
    case EnsureWallet(user) =>
      if user in t.wallets then t else t.(wallets := t.wallets[user := Zero()])
    case CreditWallet(user, amount) =>
      if user in t.wallets then t.(wallets := t.wallets[user := Load(t.wallets[user], amount)]) else t
    case CreditDeposit(user, amount, hash, _) =>
      if Takes(t, op) then
        t.(wallets := t.wallets[user := Load(WalletOf(t, user), amount)],
           topups := t.topups + [Topup(user, amount, hash)])
      else t
    case FinalizeDeduction(user, key, cost, fate) =>
      if Charges(t, op) then
        var w := t.wallets[user];
        t.(wallets := t.wallets[user := w.(balance := w.balance - cost, totalSpent := w.totalSpent + cost)],
           usage := t.usage + [Usage(user, key, cost, true)])
      else if fate.Commits? then t.(usage := t.usage + [Usage(user, key, 0.0, false)])
      else t
  }

  function Run(t: Tables, ops: seq<Op>): Tables {
    if ops == [] then t else Apply(Run(t, ops[..|ops| - 1]), ops[|ops| - 1])
  }

  function ToppedUp(user: string): Topup -> real {
    (row: Topup) => if row.user == user then row.amount else 0.0
  }

  function Charged(user: string): Usage -> real {
    (row: Usage) => if row.user == user && row.completed then row.cost else 0.0
  }

  predicate UniqueHashes(topups: seq<Topup>) {
    forall i, j :: 0 <= i < j < |topups| ==> topups[i].hash != topups[j].hash
  }

  // The books balance for one user.
  predicate Balanced(t: Tables, user: string) {
    var w := WalletOf(t, user);
    && w.balance >= 0.0
    && w.balance + w.totalSpent == w.totalLoaded
    && w.totalSpent == Sum(Charged(user), t.usage)
  }

  predicate Positive(op: Op) {
    match op
    case EnsureWallet(_) => true
    case CreditWallet(_, amount) => amount >= 0.0
    case CreditDeposit(_, amount, _, _) => amount >= 0.0
    case FinalizeDeduction(_, _, cost, _) => cost >= 0.0
  }

  predicate NonNegative(ops: seq<Op>) {
    forall op :: op in ops ==> Positive(op)
  }

  lemma ApplyKeepsBalance(t: Tables, op: Op, user: string)
    requires Balanced(t, user) && Positive(op)
    ensures Balanced(Apply(t, op), user)
  {
    if op.FinalizeDeduction? {
      SettlingKeepsBalance(t, op, user);
    } else {
      hide Sum;
    }
  }

  lemma SettlingKeepsBalance(t: Tables, op: Op, user: string)
    requires op.FinalizeDeduction? && Balanced(t, user) && Positive(op)
    ensures Balanced(Apply(t, op), user)
  {
    hide Sum;
    SumAppend(Charged(user), t.usage, Usage(op.user, op.key, op.cost, true));
    SumAppend(Charged(user), t.usage, Usage(op.user, op.key, 0.0, false));
  }

  /** Conservation: whatever the interleaving and whatever fails, no wallet is overdrawn, what was loaded is
      what is left plus what was spent, and what was spent is the sum of the completed usage rows. */
  lemma {:induction false} Conservation(t: Tables, ops: seq<Op>, user: string)
    requires Balanced(t, user) && NonNegative(ops)
    ensures Balanced(Run(t, ops), user)
  {
    if ops != [] {
      var last := ops[|ops| - 1];
      Conservation(t, ops[..|ops| - 1], user);
      ApplyKeepsBalance(Run(t, ops[..|ops| - 1]), last, user);
    }
  }

  // What the top-up flow's CreditWallet calls have added: nothing for a user without a wallet row.
  function Credited(t: Tables, ops: seq<Op>, user: string): real {
    if ops == [] then 0.0
    else
      var before := ops[..|ops| - 1];
      var last := ops[|ops| - 1];
      Credited(t, before, user)
      + (if last.CreditWallet? && last.user == user && user in Run(t, before).wallets then last.amount else 0.0)
  }

  /** Everything ever loaded into a wallet is a top-up row or an effective CreditWallet call. */
  lemma {:induction false} LoadedIsAccountedFor(t: Tables, ops: seq<Op>, user: string)
    ensures
      var now := Run(t, ops);
      WalletOf(now, user).totalLoaded - WalletOf(t, user).totalLoaded
      == Sum(ToppedUp(user), now.topups) - Sum(ToppedUp(user), t.topups) + Credited(t, ops, user)
  {
    if ops != [] {
      var before := ops[..|ops| - 1];
      var last := ops[|ops| - 1];
      LoadedIsAccountedFor(t, before, user);
      ApplyLoads(Run(t, before), last, user);
    }
  }

  // What the settlements have charged: the cost of each one that commits on a wallet whose balance covers it.
  function Settled(t: Tables, ops: seq<Op>, user: string): real {
    if ops == [] then 0.0
    else
      var before := ops[..|ops| - 1];
      var last := ops[|ops| - 1];
      var now := Run(t, before);
      Settled(t, before, user)
      + (if && last.FinalizeDeduction? && last.user == user && last.fate.Commits?
            && user in now.wallets && last.cost <= now.wallets[user].balance
         then last.cost else 0.0)
  }

  /** Everything ever spent is the cost of a settlement that committed on a sufficient balance, and the balance is
      what was loaded less that. */
  lemma {:induction false} SpentIsAccountedFor(t: Tables, ops: seq<Op>, user: string)
    ensures
      var was, now := WalletOf(t, user), WalletOf(Run(t, ops), user);
      && now.totalSpent - was.totalSpent == Settled(t, ops, user)
      && now.balance - was.balance == now.totalLoaded - was.totalLoaded - Settled(t, ops, user)
  {
    if ops != [] {
      SpentIsAccountedFor(t, ops[..|ops| - 1], user);
    }
  }

  // The usage rows of the settlements that commit: completed with its cost, or failed and free.
  function RowsLeft(t: Tables, ops: seq<Op>): seq<Usage> {
    if ops == [] then []
    else
      var before := ops[..|ops| - 1];
      var last := ops[|ops| - 1];
      var now := Run(t, before);
      RowsLeft(t, before)
      + (if !(last.FinalizeDeduction? && last.fate.Commits?) then []
         else if last.user in now.wallets && last.cost <= now.wallets[last.user].balance
         then [Usage(last.user, last.key, last.cost, true)]
         else [Usage(last.user, last.key, 0.0, false)])
  }

  /** Every settlement that commits leaves one usage row, and nothing else leaves any. */
  lemma {:induction false} UsageIsAccountedFor(t: Tables, ops: seq<Op>)
    ensures Run(t, ops).usage == t.usage + RowsLeft(t, ops)
  {
    if ops != [] {
      UsageIsAccountedFor(t, ops[..|ops| - 1]);
    }
  }

  lemma ApplyLoads(t: Tables, op: Op, user: string)
    ensures
      var now := Apply(t, op);
      WalletOf(now, user).totalLoaded - WalletOf(t, user).totalLoaded
      == Sum(ToppedUp(user), now.topups) - Sum(ToppedUp(user), t.topups)
         + (if op.CreditWallet? && op.user == user && user in t.wallets then op.amount else 0.0)
  {
    if op.CreditDeposit? {
      SumAppend(ToppedUp(user), t.topups, Topup(op.user, op.amount, op.hash));
    }
  }

  // How many deposit transactions with this hash have added money to a wallet.
  function TimesCredited(t: Tables, ops: seq<Op>, hash: string): nat {
    if ops == [] then 0
    else
      var before := ops[..|ops| - 1];
      var last := ops[|ops| - 1];
      TimesCredited(t, before, hash) + (if Takes(Run(t, before), last) && last.hash == hash then 1 else 0)
  }

  /** At most once: over any run, a transaction hash is credited exactly once when its row is new, and
      otherwise never. Rows stay, and the unique index stays satisfied. */
  lemma {:induction false} AtMostOnce(t: Tables, ops: seq<Op>, hash: string)
    requires UniqueHashes(t.topups)
    ensures UniqueHashes(Run(t, ops).topups)
    ensures t.topups <= Run(t, ops).topups
    ensures TimesCredited(t, ops, hash)
            == if HasHash(Run(t, ops).topups, hash) && !HasHash(t.topups, hash) then 1 else 0
  {
    if ops != [] {
      var before := ops[..|ops| - 1];
      var last := ops[|ops| - 1];
      AtMostOnce(t, before, hash);
      var mid := Run(t, before);
      if Takes(mid, last) {
        AppendHash(mid.topups, Topup(last.user, last.amount, last.hash), hash);
      }
      if HasHash(t.topups, hash) {
        var i :| 0 <= i < |t.topups| && t.topups[i].hash == hash;
        assert mid.topups[i].hash == hash;
        assert Run(t, ops).topups[i].hash == hash;
      }
    }
  }

  lemma AppendHash(topups: seq<Topup>, row: Topup, hash: string)
    ensures HasHash(topups + [row], hash) <==> HasHash(topups, hash) || row.hash == hash
  {
    var longer := topups + [row];
    if row.hash == hash {
      assert longer[|topups|].hash == hash;
    }
    if HasHash(topups, hash) {
      var i :| 0 <= i < |topups| && topups[i].hash == hash;
      assert longer[i].hash == hash;
    }
    if HasHash(longer, hash) && row.hash != hash {
      var i :| 0 <= i < |longer| && longer[i].hash == hash;
      assert topups[i].hash == hash;
    }
  }

  lemma {:induction false} RunConcat(t: Tables, before: seq<Op>, after: seq<Op>)
    ensures Run(t, before + after) == Run(Run(t, before), after)
  {
    if after == [] {
      assert before + after == before;
    } else {
      var n := |after| - 1;
      assert (before + after)[..|before| + n] == before + after[..n];
      RunConcat(t, before, after[..n]);
    }
  }

  lemma RunOne(t: Tables, op: Op)
    ensures Run(t, [op]) == Apply(t, op)
  {
    assert [op][..0] == [];
  }

  /** A CreditWallet for a user without a wallet row is silently lost. */
  lemma CreditNeedsAWallet(t: Tables, user: string, amount: real)
    requires amount != 0.0
    ensures WalletOf(Apply(t, CreditWallet(user, amount)), user).balance == WalletOf(t, user).balance + amount
            <==> user in t.wallets
  {
  }

  datatype Lookup = Found(balance: real, held: real) | NoRow | QueryFailed

  class PostgresStore {
    var wallets: map<string, Wallet>
    var topups: seq<Topup>
    var usage: seq<Usage>

    function State(): Tables
      reads this
    {
      Tables(wallets, topups, usage)
    }

    constructor ()
      ensures State() == Tables(map[], [], [])
    {
      wallets, topups, usage := map[], [], [];
    }

    method GetWalletBalanceAndHeld(user: string, ok: bool) returns (answer: Lookup)
      ensures answer.QueryFailed? <==> !ok
      ensures answer.NoRow? <==> ok && user !in wallets
      ensures answer.Found? ==> answer == Found(wallets[user].balance, wallets[user].held)
    {
      if !ok { return QueryFailed; }
      if user !in wallets { return NoRow; }
      answer := Found(wallets[user].balance, wallets[user].held);
    }

    // INSERT ... ON CONFLICT DO NOTHING
    method EnsureWallet(user: string)
      modifies this
      ensures State() == Apply(old(State()), Op.EnsureWallet(user))
    {
      if user !in wallets {
        wallets := wallets[user := Wallet(0.0, 0.0, 0.0, 0.0)];
      }
    }

    // UPDATE ... WHERE user_id: no row, no effect, no error.
    method CreditWallet(user: string, amount: real)
      modifies this
      ensures State() == Apply(old(State()), Op.CreditWallet(user, amount))
    {
      if user in wallets {
        var w := wallets[user];
        wallets := wallets[user := w.(balance := w.balance + amount, totalLoaded := w.totalLoaded + amount)];
      }
    }

    // Insert first, so that a duplicate hash stops the transaction before any balance changes.
    method CreditDeposit(user: string, amount: real, hash: string, fate: TxFate)
      modifies this
      ensures State() == Apply(old(State()), Op.CreditDeposit(user, amount, hash, fate))
    {
      if fate.BeginFails? { return; }
      var duplicate := HasHash(topups, hash);
      if duplicate || fate.InsertFails? { return; }
      var rows := topups + [Topup(user, amount, hash)];
      if fate.WalletFails? { return; }
      var credited := wallets;
      if user in wallets {
        var w := wallets[user];
        credited := wallets[user := w.(balance := w.balance + amount, totalLoaded := w.totalLoaded + amount)];
      } else {
        credited := wallets[user := Wallet(amount, 0.0, amount, 0.0)];
      }
      if fate.CommitFails? { return; }
      topups, wallets := rows, credited;
    }

    // The settlement transaction: conditional UPDATE, then a completed or a failed usage row.
    method FinalizeDeduction(user: string, key: string, cost: real, fate: TxFate)
      modifies this
      ensures State() == Apply(old(State()), Op.FinalizeDeduction(user, key, cost, fate))
    {
      if fate.BeginFails? || fate.WalletFails? { return; }
      var charged := wallets;
      var affected := user in wallets && wallets[user].balance >= cost;
      if affected {
        var w := wallets[user];
        charged := wallets[user := w.(balance := w.balance - cost, totalSpent := w.totalSpent + cost)];
      }
      if fate.InsertFails? || fate.CommitFails? { return; }
      wallets := charged;
      usage := usage + [Usage(user, key, if affected then cost else 0.0, affected)];
    }
  }
}

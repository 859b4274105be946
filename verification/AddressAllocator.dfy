/** Deposit addresses: an optimistic allocator of derivation indices, run by any number of callers at once. */
module AddressAllocator {
  import opened Sums

  const ATTEMPTS: nat := 5
  const INDEX_SPACE: nat := 0x1_0000_0000

  datatype Row = Row(user: string, address: string, index: nat)

  type Table = seq<Row>

  // BIP-44 derivation: different indices give different addresses.
  type Derivation = nat -> string

  ghost predicate Injective(derive: Derivation) {
    forall i, j :: derive(i) == derive(j) ==> i == j
  }

  // COALESCE(MAX(derivation_index), -1)
  function MaxIndex(t: Table): int
    ensures MaxIndex(t) >= -1
  {
    if t == [] then -1
    else
      var m := MaxIndex(t[..|t| - 1]);
      if t[|t| - 1].index > m then t[|t| - 1].index else m
  }

  // uint32(maxIdx + 1)
  function NextIndex(t: Table): nat { (MaxIndex(t) + 1) % INDEX_SPACE }

  predicate Conflicts(t: Table, row: Row) {
    exists i :: 0 <= i < |t| && (t[i].index == row.index || t[i].address == row.address)
  }

  // INSERT ... ON CONFLICT DO NOTHING, both columns being unique.
  function Insert(t: Table, row: Row): Table { if Conflicts(t, row) then t else t + [row] }

  // The owner of an address.
  function Owner(t: Table, address: string): Option<string> {
    if t == [] then None
    else if t[|t| - 1].address == address then Some(t[|t| - 1].user)
    else Owner(t[..|t| - 1], address)
  }

  // The user's row with the lowest index.
  function Lowest(t: Table, user: string): Option<Row> {
    if t == [] then None
    else
      var low := Lowest(t[..|t| - 1], user);
      var last := t[|t| - 1];
      if last.user == user && (low.None? || last.index < low.value.index) then Some(last) else low
  }

  datatype Answer = Address(address: string) | Exhausted | Failed

  // The query a caller issues next. `read` is the number of rows when MAX was read.
  datatype Pc = Lookup | ReadMax | Claim(index: nat, read: nat) | Verify(index: nat, read: nat) | Done(answer: Answer)

  // A caller: `since` and `bound` delimit the rows its lost attempts ran into.
  datatype Caller = Caller(user: string, attempt: nat, since: nat, bound: nat, pc: Pc)

  // One query of one caller; ok is false when it fails.
  function Query(t: Table, c: Caller, derive: Derivation, ok: bool): (Table, Caller) {
    if !ok && !c.pc.Done? then (t, c.(pc := Done(Failed)))
    else
      match c.pc
      case Lookup =>
        var low := Lowest(t, c.user);
        if low.Some? then (t, c.(pc := Done(Address(low.value.address))))
        else (t, c.(pc := ReadMax, since := |t|, bound := |t|))
      case ReadMax => (t, c.(pc := Claim(NextIndex(t), |t|)))
      case Claim(index, read) => (Insert(t, Row(c.user, derive(index), index)), c.(pc := Verify(index, read)))
      case Verify(index, _) =>
        var owner := Owner(t, derive(index));
        if owner.None? then (t, c.(pc := Done(Failed)))
        else if owner.value == c.user then (t, c.(pc := Done(Address(derive(index)))))
        else
          (t, c.(attempt := c.attempt + 1, bound := index + 1,
                 pc := if c.attempt + 1 < ATTEMPTS then ReadMax else Done(Exhausted)))
      case Done(_) => (t, c)
  }

  datatype System = System(table: Table, callers: seq<Caller>)

  datatype Act = Act(who: nat, ok: bool)

  function Step(s: System, derive: Derivation, a: Act): System {
    if a.who >= |s.callers| then s
    else
      var (t, c) := Query(s.table, s.callers[a.who], derive, a.ok);
      System(t, s.callers[a.who := c])
  }

  function Run(s: System, derive: Derivation, acts: seq<Act>): System {
    if acts == [] then s else Step(Run(s, derive, acts[..|acts| - 1]), derive, acts[|acts| - 1])
  }

  // The allocated indices are exactly 0 .. n-1, in insertion order, each with its derived address.
  predicate Dense(t: Table, derive: Derivation) {
    forall i :: 0 <= i < |t| ==> t[i].index == i && t[i].address == derive(i)
  }

  // Rows from lo up to hi owned by somebody else.
  function OthersIn(t: Table, lo: nat, hi: nat, user: string): nat
    requires lo <= hi <= |t|
  {
    if lo == hi then 0 else OthersIn(t, lo, hi - 1, user) + (if t[hi - 1].user != user then 1 else 0)
  }

  lemma {:induction false} OthersGrow(t: Table, lo: nat, hi: nat, hi': nat, user: string)
    requires lo <= hi <= hi' <= |t|
    ensures OthersIn(t, lo, hi, user) <= OthersIn(t, lo, hi', user)
  {
    if hi < hi' { OthersGrow(t, lo, hi, hi' - 1, user); }
  }

  lemma {:induction false} OthersPrefix(t: Table, t': Table, lo: nat, hi: nat, user: string)
    requires lo <= hi <= |t| && t <= t'
    ensures OthersIn(t', lo, hi, user) == OthersIn(t, lo, hi, user)
  {
    if lo < hi { OthersPrefix(t, t', lo, hi - 1, user); }
  }

  lemma {:induction false} MaxOfDense(t: Table, derive: Derivation)
    requires Dense(t, derive)
    ensures MaxIndex(t) == |t| - 1
  {
    if t != [] { MaxOfDense(t[..|t| - 1], derive); }
  }

  lemma NextOfDense(t: Table, derive: Derivation)
    requires Dense(t, derive)
    ensures NextIndex(t) <= |t| && (|t| < INDEX_SPACE ==> NextIndex(t) == |t|)
  {
    MaxOfDense(t, derive);
  }

  // The smallest free index is appended; any smaller one is refused.
  lemma InsertInDense(t: Table, derive: Derivation, user: string, index: nat)
    requires Dense(t, derive) && Injective(derive) && index <= |t|
    ensures
      var t' := Insert(t, Row(user, derive(index), index));
      && Dense(t', derive) && t <= t' && index < |t'|
      && t' == (if index < |t| then t else t + [Row(user, derive(index), index)])
  {
    if index < |t| {
      assert t[index].index == index;
    }
  }

  lemma {:induction false} OwnerInDense(t: Table, derive: Derivation, index: nat)
    requires Dense(t, derive) && Injective(derive) && index < |t|
    ensures Owner(t, derive(index)) == Some(t[index].user)
  {
    var n := |t| - 1;
    if index < n {
      assert t[n].address == derive(n);
      OwnerInDense(t[..n], derive, index);
    }
  }

  lemma {:induction false} LowestIsOwn(t: Table, user: string)
    ensures Lowest(t, user).Some? ==>
      exists i :: 0 <= i < |t| && t[i] == Lowest(t, user).value && t[i].user == user
    ensures Lowest(t, user).None? ==> forall i :: 0 <= i < |t| ==> t[i].user != user
    ensures Lowest(t, user).Some? ==>
      forall i :: 0 <= i < |t| && t[i].user == user ==> Lowest(t, user).value.index <= t[i].index
  {
    if t != [] {
      var n := |t| - 1;
      LowestIsOwn(t[..n], user);
      var low := Lowest(t[..n], user);
      if low.Some? {
        var i :| 0 <= i < n && t[..n][i] == low.value && t[..n][i].user == user;
        assert t[i] == low.value;
      }
      assert forall i :: 0 <= i < n ==> t[..n][i] == t[i];
    }
  }

  predicate Owns(t: Table, user: string, address: string) {
    exists i :: 0 <= i < |t| && t[i].user == user && t[i].address == address
  }

  // What is true of one caller beside a dense table.
  predicate Local(t: Table, c: Caller) {
    && c.since <= c.bound <= |t|
    && c.attempt <= OthersIn(t, c.since, c.bound, c.user)
    && match c.pc
       case Lookup => c.attempt == 0
       case ReadMax => c.attempt < ATTEMPTS
       case Claim(index, read) => c.attempt < ATTEMPTS && c.bound <= index == read <= |t|
       case Verify(index, read) => c.attempt < ATTEMPTS && c.bound <= index == read < |t|
       case Done(Address(a)) => Owns(t, c.user, a)
       case Done(Exhausted) => c.attempt == ATTEMPTS
       case Done(Failed) => true
  }

  lemma OwnsGrows(t: Table, t': Table, user: string, address: string)
    requires t <= t' && Owns(t, user, address)
    ensures Owns(t', user, address)
  {
    var i :| 0 <= i < |t| && t[i].user == user && t[i].address == address;
    assert t'[i] == t[i];
  }

  lemma LocalGrows(t: Table, t': Table, c: Caller)
    requires t <= t' && Local(t, c)
    ensures Local(t', c)
  {
    OthersPrefix(t, t', c.since, c.bound, c.user);
    if c.pc.Done? && c.pc.answer.Address? {
      OwnsGrows(t, t', c.user, c.pc.answer.address);
    }
  }

  /** One query keeps the table dense and only ever appends to it, by at most one row of the caller. */
  lemma QueryKeepsDense(t: Table, c: Caller, derive: Derivation, ok: bool)
    requires Dense(t, derive) && Injective(derive) && Local(t, c)
    ensures
      var (t', _) := Query(t, c, derive, ok);
      && Dense(t', derive)
      && (t' == t || t' == t + [Row(c.user, derive(|t|), |t|)])
  {
    if c.pc.Claim? {
      InsertInDense(t, derive, c.user, c.pc.index);
    }
  }

  lemma QueryKeepsLocal(t: Table, c: Caller, derive: Derivation, ok: bool)
    requires Dense(t, derive) && Injective(derive) && Local(t, c) && |t| < INDEX_SPACE
    ensures
      var (t', c') := Query(t, c, derive, ok);
      Local(t', c') && c'.user == c.user
  {
    match c.pc
    case Lookup => LowestIsOwn(t, c.user);
    case ReadMax => MaxOfDense(t, derive);
    case Claim(_, _) => ClaimKeepsLocal(t, c, derive, ok);
    case Verify(_, _) => VerifyKeepsLocal(t, c, derive, ok);
    case Done(_) =>
  }

  lemma ClaimKeepsLocal(t: Table, c: Caller, derive: Derivation, ok: bool)
    requires Dense(t, derive) && Injective(derive) && Local(t, c) && |t| < INDEX_SPACE
    requires c.pc.Claim?
    ensures
      var (t', c') := Query(t, c, derive, ok);
      Local(t', c') && c'.user == c.user
  {
    InsertInDense(t, derive, c.user, c.pc.index);
    OthersPrefix(t, Query(t, c, derive, ok).0, c.since, c.bound, c.user);
  }

  lemma VerifyKeepsLocal(t: Table, c: Caller, derive: Derivation, ok: bool)
    requires Dense(t, derive) && Injective(derive) && Local(t, c) && |t| < INDEX_SPACE
    requires c.pc.Verify?
    ensures
      var (t', c') := Query(t, c, derive, ok);
      Local(t', c') && c'.user == c.user
  {
    OwnerInDense(t, derive, c.pc.index);
    assert t[c.pc.index].address == derive(c.pc.index);
    OthersGrow(t, c.since, c.bound, c.pc.index, c.user);
  }

  /** A lost attempt means that another user's row has taken the index since MAX was read. */
  lemma LostMeansOvertaken(t: Table, c: Caller, derive: Derivation)
    requires Dense(t, derive) && Injective(derive) && Local(t, c)
    requires c.pc.Verify? && Query(t, c, derive, true).1.attempt > c.attempt
    ensures c.pc.read < |t| && t[c.pc.read].user != c.user
  {
    OwnerInDense(t, derive, c.pc.index);
  }

  // Callers that have not started, beside a dense table.
  predicate Start(s: System, derive: Derivation) {
    && Dense(s.table, derive)
    && forall c :: c in s.callers ==> c.pc == Lookup && c.attempt == 0 && c.since == c.bound == 0
  }

  ghost predicate Inv(s: System, derive: Derivation) {
    Dense(s.table, derive) && forall c :: c in s.callers ==> Local(s.table, c)
  }

  lemma StepKeepsInv(s: System, derive: Derivation, a: Act)
    requires Inv(s, derive) && Injective(derive) && |s.table| < INDEX_SPACE
    ensures Inv(Step(s, derive, a), derive) && s.table <= Step(s, derive, a).table
  {
    if a.who < |s.callers| {
      var c := s.callers[a.who];
      assert c in s.callers;
      QueryKeepsDense(s.table, c, derive, a.ok);
      QueryKeepsLocal(s.table, c, derive, a.ok);
      var s' := Step(s, derive, a);
      forall q | q in s'.callers
        ensures Local(s'.table, q)
      {
        if q != s'.callers[a.who] {
          assert q in s.callers;
          LocalGrows(s.table, s'.table, q);
        }
      }
    }
  }

  lemma {:induction false} RunInv(s: System, derive: Derivation, acts: seq<Act>)
    requires Start(s, derive) && Injective(derive)
    requires |Run(s, derive, acts).table| < INDEX_SPACE
    ensures Inv(Run(s, derive, acts), derive) && s.table <= Run(s, derive, acts).table
    ensures |Run(s, derive, acts).callers| == |s.callers|
  {
    if acts != [] {
      var before := acts[..|acts| - 1];
      TableGrows(Run(s, derive, before), derive, acts[|acts| - 1]);
      RunInv(s, derive, before);
      StepKeepsInv(Run(s, derive, before), derive, acts[|acts| - 1]);
    }
  }

  lemma TableGrows(s: System, derive: Derivation, a: Act)
    ensures |s.table| <= |Step(s, derive, a).table|
  {
  }

  /** Allocation is sound under every interleaving: the allocated indices are exactly 0 .. n-1, each with one
      owner and its own address; an address handed out is a row of the caller it was handed to; and a caller
      that gives up was overtaken by at least five rows of other users inserted since it started. */
  lemma AllocationIsSound(s: System, derive: Derivation, acts: seq<Act>)
    requires Start(s, derive) && Injective(derive)
    requires |Run(s, derive, acts).table| < 0x1_0000_0000
    ensures
      var now := Run(s, derive, acts);
      && s.table <= now.table
      && Dense(now.table, derive)
      && (forall i, j :: 0 <= i < j < |now.table| ==> now.table[i].address != now.table[j].address)
      && (forall c :: c in now.callers && c.pc.Done? && c.pc.answer.Address? ==>
            Owns(now.table, c.user, c.pc.answer.address))
      && (forall c :: c in now.callers && c.pc == Done(Exhausted) ==>
            c.since <= |now.table| && OthersIn(now.table, c.since, |now.table|, c.user) >= 5)
  {
    RunInv(s, derive, acts);
    var now := Run(s, derive, acts);
    forall c | c in now.callers && c.pc == Done(Exhausted)
      ensures c.since <= |now.table| && OthersIn(now.table, c.since, |now.table|, c.user) >= 5
    {
      OthersGrow(now.table, c.since, c.bound, |now.table|, c.user);
    }
  }

  // The user's first row.
  predicate FirstOf(t: Table, k: nat, user: string) {
    k < |t| && t[k].user == user && forall j :: 0 <= j < k ==> t[j].user != user
  }

  lemma FirstIsLowest(t: Table, derive: Derivation, k: nat, user: string)
    requires Dense(t, derive) && FirstOf(t, k, user)
    ensures Lowest(t, user) == Some(t[k])
  {
    LowestIsOwn(t, user);
    if Lowest(t, user).Some? {
      var i :| 0 <= i < |t| && t[i] == Lowest(t, user).value && t[i].user == user;
      assert t[i].index == i && t[k].index == k;
    }
  }

  // A caller whose user has a row already: it has not asked yet, or has got that row's address, or an error.
  predicate Known(c: Caller, address: string) { c.pc in {Lookup, Done(Address(address)), Done(Failed)} }

  lemma KnownStaysKnown(t: Table, c: Caller, derive: Derivation, ok: bool, k: nat)
    requires Dense(t, derive) && FirstOf(t, k, c.user) && Known(c, t[k].address)
    ensures Query(t, c, derive, ok).0 == t && Known(Query(t, c, derive, ok).1, t[k].address)
    ensures Query(t, c, derive, ok).1.user == c.user
  {
    FirstIsLowest(t, derive, k, c.user);
  }

  /** A user who has a row keeps its address under every interleaving: every call for that user answers with the
      address of its first row, unless its query fails, and no row is added for it. */
  lemma {:induction false} KnownUserKeepsAddress(s: System, derive: Derivation, acts: seq<Act>, k: nat, user: string)
    requires Start(s, derive) && Injective(derive) && FirstOf(s.table, k, user)
    requires |Run(s, derive, acts).table| < 0x1_0000_0000
    ensures
      var now := Run(s, derive, acts);
      && s.table <= now.table
      && (forall c :: c in now.callers && c.user == user ==> Known(c, s.table[k].address))
      && (forall j :: |s.table| <= j < |now.table| ==> now.table[j].user != user)
  {
    RunInv(s, derive, acts);
    if acts != [] {
      var before := acts[..|acts| - 1];
      var last := acts[|acts| - 1];
      TableGrows(Run(s, derive, before), derive, last);
      RunInv(s, derive, before);
      KnownUserKeepsAddress(s, derive, before, k, user);
      StepKeepsKnown(Run(s, derive, before), derive, last, k, user, |s.table|);
    }
  }

  lemma StepKeepsKnown(s: System, derive: Derivation, a: Act, k: nat, user: string, n: nat)
    requires Inv(s, derive) && Injective(derive) && k < n <= |s.table| && FirstOf(s.table, k, user)
    requires forall c :: c in s.callers && c.user == user ==> Known(c, s.table[k].address)
    requires forall j :: n <= j < |s.table| ==> s.table[j].user != user
    ensures
      var now := Step(s, derive, a);
      && (forall c :: c in now.callers && c.user == user ==> Known(c, s.table[k].address))
      && (forall j :: n <= j < |now.table| ==> now.table[j].user != user)
  {
    if a.who < |s.callers| {
      var c := s.callers[a.who];
      assert c in s.callers;
      QueryKeepsDense(s.table, c, derive, a.ok);
      if c.user == user { KnownStaysKnown(s.table, c, derive, a.ok, k); }
      var now := Step(s, derive, a);
      forall q | q in now.callers && q.user == user
        ensures Known(q, s.table[k].address)
      {
        if q != now.callers[a.who] { assert q in s.callers; }
      }
    }
  }

  // ---- The retry loop itself, with other callers' inserts landing before each of its queries ----

  // Rows appended for these users by other callers.
  function Append(t: Table, users: seq<string>, derive: Derivation): Table {
    if users == [] then t
    else
      var t' := Append(t, users[..|users| - 1], derive);
      t' + [Row(users[|users| - 1], derive(|t'|), |t'|)]
  }

  lemma {:induction false} AppendKeepsDense(t: Table, users: seq<string>, derive: Derivation)
    requires Dense(t, derive)
    ensures Dense(Append(t, users, derive), derive) && t <= Append(t, users, derive)
    ensures |Append(t, users, derive)| == |t| + |users|
  {
    if users != [] { AppendKeepsDense(t, users[..|users| - 1], derive); }
  }

  class AddressManager {
    var rows: Table
    const derive: Derivation

    constructor (derive: Derivation)
      ensures this.derive == derive && rows == []
    {
      this.derive := derive;
      rows := [];
    }

    // Other callers may insert any number of rows between two queries.
    method Interfere(users: seq<string>)
      requires Dense(rows, derive)
      modifies this
      ensures rows == Append(old(rows), users, derive)
      ensures Dense(rows, derive) && old(rows) <= rows
    {
      AppendKeepsDense(rows, users, derive);
      rows := Append(rows, users, derive);
    }

    // One round of the loop: read MAX, claim the next index, ask who owns the derived address.
    method Attempt(user: string, round: nat, others: nat -> seq<string>, ok: nat -> bool)
      returns (owner: Option<string>, index: nat)
      requires Dense(rows, derive) && Injective(derive)
      modifies this
      ensures Dense(rows, derive) && old(rows) <= rows
      ensures owner.Some? ==> index < |rows| && owner.value == rows[index].user
      ensures |rows| < INDEX_SPACE ==> |old(rows)| <= index
    {
      owner, index := None, 0;
      Interfere(others(3 * round + 1));
      NextOfDense(rows, derive);
      index := NextIndex(rows);
      ghost var read := |rows|;
      if !ok(3 * round + 1) { return; }
      Interfere(others(3 * round + 2));
      if !ok(3 * round + 2) { return; }
      InsertInDense(rows, derive, user, index);
      rows := Insert(rows, Row(user, derive(index), index));
      assert index < |rows|;
      Interfere(others(3 * round + 3));
      assert |rows| < INDEX_SPACE ==> index == read;
      if !ok(3 * round + 3) { return; }
      OwnerInDense(rows, derive, index);
      owner := Owner(rows, derive(index));
    }

    // The retry loop; `since` is the number of rows when the call began.
    method Allocate(user: string, others: nat -> seq<string>, ok: nat -> bool, ghost since: nat)
      returns (answer: Answer)
      requires Dense(rows, derive) && Injective(derive) && since <= |rows|
      modifies this
      ensures Dense(rows, derive) && old(rows) <= rows
      ensures answer.Address? ==> Owns(rows, user, answer.address)
      ensures answer.Exhausted? && |rows| < 0x1_0000_0000 ==> OthersIn(rows, since, |rows|, user) >= 5
    {
      answer := Failed;
      ghost var bound := |rows|;
      OthersGrow(rows, since, since, bound, user);
      for attempt := 0 to ATTEMPTS
        invariant Dense(rows, derive) && old(rows) <= rows
        invariant since <= bound <= |rows|
        invariant |rows| < INDEX_SPACE ==> attempt <= OthersIn(rows, since, bound, user)
      {
        ghost var before := rows;
        var owner, index := Attempt(user, attempt, others, ok);
        if owner.None? { return; }
        if owner.value == user {
          assert rows[index].user == user && rows[index].address == derive(index);
          return Address(derive(index));
        }
        OthersPrefix(before, rows, since, bound, user);
        if |rows| < INDEX_SPACE {
          OthersGrow(rows, since, bound, index, user);
          bound := index + 1;
        }
      }
      OthersGrow(rows, since, bound, |rows|, user);
      answer := Exhausted;
    }

    /** GetOrCreateAddress: whatever others insert between its queries, the table stays dense, an address
        returned is the caller's, and giving up takes five rows of others inserted during the call. A user who has a
        row gets the address of its first one, and no row is added. */
    method GetOrCreateAddress(user: string, others: nat -> seq<string>, ok: nat -> bool) returns (answer: Answer)
      requires Dense(rows, derive) && Injective(derive)
      modifies this
      ensures Dense(rows, derive) && old(rows) <= rows
      ensures answer.Address? ==> Owns(rows, user, answer.address)
      ensures answer.Exhausted? && |rows| < 0x1_0000_0000 ==> OthersIn(rows, |old(rows)|, |rows|, user) >= 5
      ensures forall k: nat :: FirstOf(old(rows), k, user) ==>
        && rows == Append(old(rows), others(0), derive)
        && answer == if ok(0) then Address(old(rows)[k].address) else Failed
    {
      Interfere(others(0));
      answer := Failed;
      if !ok(0) { return; }
      var low := Lowest(rows, user);
      forall k: nat | FirstOf(old(rows), k, user) ensures low == Some(old(rows)[k]) {
        FirstIsLowest(rows, derive, k, user);
      }
      if low.Some? {
        LowestIsOwn(rows, user);
        return Address(low.value.address);
      }
      answer := Allocate(user, others, ok, |old(rows)|);
    }
  }
}

/** Sums over whole tables: money is neither created nor lost, and the transaction rows
    tell the same story as the ledger. */
module Conservation {
  import opened Money
  import opened Ledger
  import opened Tables
  import opened Sums
  import opened Books

  // ----- fresh identifiers

  ghost predicate OpFresh(db: Db, c: Commit) {
    c.Request? && c.op.MovesMoney() ==> c.id !in db.txs && c.id !in db.payments
  }

  // Every request in the log created its rows under an id that was new.
  ghost predicate FreshLog(db0: Db, log: seq<Commit>) {
    forall i | 0 <= i < |log| && RunLog(db0, log[..i]).Ok? :: OpFresh(RunLog(db0, log[..i]).value, log[i])
  }

  lemma FreshPrefix(db0: Db, log: seq<Commit>)
    requires log != [] && FreshLog(db0, log)
    ensures FreshLog(db0, log[..|log| - 1])
  {
    hide RunLog, OpFresh;
    var front := log[..|log| - 1];
    forall i | 0 <= i < |front| && RunLog(db0, front[..i]).Ok?
      ensures OpFresh(RunLog(db0, front[..i]).value, front[i])
    {
      assert front[..i] == log[..i];
    }
  }

  // ----- the two totals

  ghost function BalanceOf(db: Db): map<nat, int> {
    map w | w in db.wallets :: db.wallets[w].balance
  }

  // What a transaction brings into or takes out of the bank.
  function Flow(tx: Tx): int {
    match tx.kind
    case DepositTx => tx.amount
    case WithdrawTx => -tx.amount
    case TransferTx => 0
  }

  ghost function FlowOf(db: Db): map<nat, int> {
    map t | t in db.txs :: Flow(db.txs[t])
  }

  // The drift of one change on all the wallets it posts to.
  function StepDrifts(c: Commit, after: Db): int {
    if c.Request? && c.op.MovesMoney() then
      (if c.op.Debited().Some? then StepDrift(c, after, c.op.Debited().value) else 0)
      + (if c.op.Credited().Some? then StepDrift(c, after, c.op.Credited().value) else 0)
    else 0
  }

  function AllDrift(db0: Db, log: seq<Commit>): int
    requires RunLog(db0, log).Ok?
  {
    if log == [] then 0
    else AllDrift(db0, log[..|log| - 1]) + StepDrifts(log[|log| - 1], RunLog(db0, log).value)
  }

  lemma PostTotal(db: Db, id: nat, w: nat, kind: Kind, amount: real, after: Db)
    requires w in db.wallets && Post(db, id, w, kind, amount) == Ok(after) && 0.0 < amount
    ensures Sum(BalanceOf(after))
         == Sum(BalanceOf(db)) + Signed(kind, Cents(amount)) + DriftOf(kind, amount, after.wallets[w].balance)
    ensures after.txs == db.txs
  {
    hide After, Cents, Fits, DriftOf, Sum;
    PostingDrift(db.wallets[w].balance, kind, amount);
    assert BalanceOf(after) == BalanceOf(db)[w := after.wallets[w].balance];
    Put(BalanceOf(db), w, after.wallets[w].balance);
  }

  ghost predicate Conserved(db: Db, drift: int) {
    Sum(BalanceOf(db)) == Sum(FlowOf(db)) + drift
  }

  lemma RowTotal(db: Db, id: nat, tx: Tx)
    requires id !in db.txs
    ensures var d0 := db.(txs := db.txs[id := tx]);
      Sum(FlowOf(d0)) == Sum(FlowOf(db)) + Flow(tx) && Sum(BalanceOf(d0)) == Sum(BalanceOf(db))
  {
    hide Sum, Flow;
    var d0 := db.(txs := db.txs[id := tx]);
    assert FlowOf(d0) == FlowOf(db)[id := Flow(tx)];
    Put(FlowOf(db), id, Flow(tx));
    assert BalanceOf(d0) == BalanceOf(db);
  }

  lemma OpTotal(db: Db, id: nat, op: Op, after: Db)
    requires op.MovesMoney() && Atomic(db, id, op) == Ok(after)
    ensures Sum(BalanceOf(after)) == Sum(BalanceOf(db)) + Flow(TxOf(op)) + StepDrifts(Request(id, op), after)
  {
    var d0, d1, d2 := AtomicStages(db, id, op, after);
    hide Atomic, Funds.Refused, Sum, Cents, DriftOf, Fits, Post, Keys;
    assert BalanceOf(d0) == BalanceOf(db) && BalanceOf(after) == BalanceOf(d2);
    if op.Debited().Some? {
      PostElsewhere(d0, id, op.Debited().value, Debit, op.amount, d1);
      PostTotal(d0, id, op.Debited().value, Debit, op.amount, d1);
    }
    if op.Credited().Some? {
      PostElsewhere(d1, id, op.Credited().value, Credit, op.amount, d2);
      PostTotal(d1, id, op.Credited().value, Credit, op.amount, d2);
    }
  }

  lemma OpConserves(db: Db, id: nat, op: Op, after: Db, drift: int)
    requires op.MovesMoney() && Atomic(db, id, op) == Ok(after) && id !in db.txs && Conserved(db, drift)
    ensures Conserved(after, drift + StepDrifts(Request(id, op), after))
  {
    OpTotal(db, id, op, after);
    var d0, d1, d2 := AtomicStages(db, id, op, after);
    hide Atomic, Funds.Refused, Sum, Cents, Fits, Keys, After, StepDrifts, Flow;
    RowTotal(db, id, TxOf(op));
    assert FlowOf(after) == FlowOf(d0);
  }

  lemma SameTotals(db: Db, after: Db)
    requires after.wallets == db.wallets && after.txs == db.txs
    ensures Sum(BalanceOf(after)) == Sum(BalanceOf(db)) && Sum(FlowOf(after)) == Sum(FlowOf(db))
  {
    assert BalanceOf(after) == BalanceOf(db) && FlowOf(after) == FlowOf(db);
  }

  lemma LifecycleTotal(db: Db, id: nat, op: Op, after: Db, drift: int)
    requires !op.MovesMoney() && LifecycleWrite(db, id, op) == Ok(after) && Conserved(db, drift)
    ensures Conserved(after, drift)
  {
    hide Sum, HasWallet;
    BalancesStay(db, id, op, after);
    assert FlowOf(after) == FlowOf(db);
  }

  lemma BalancesStay(db: Db, id: nat, op: Op, after: Db)
    requires !op.MovesMoney() && LifecycleWrite(db, id, op) == Ok(after)
    ensures Sum(BalanceOf(after)) == Sum(BalanceOf(db))
  {
    hide Sum, HasWallet;
    var w := if op.Create? then id else op.w;
    var v := if op.Create? then 0 else db.wallets[op.w].balance;
    assert BalanceOf(after) == BalanceOf(db)[w := v];
    Put(BalanceOf(db), w, v);
  }

  /** Conservation, for arbitrary amounts and balances of any size and sign: the balances of
      all wallets add up to the deposits, payments included, minus the withdrawals, plus the
      drift of the half-cent postings.  A transfer contributes at most its own drift. */
  lemma {:induction false} MoneyIsConserved(db0: Db, log: seq<Commit>, db: Db)
    requires Conserved(db0, 0) && FreshLog(db0, log) && RunLog(db0, log) == Ok(db)
    ensures Conserved(db, AllDrift(db0, log))
    decreases |log|
  {
    hide Do, StepDrifts, OpFresh, Conserved;
    if log != [] {
      var front, c := log[..|log| - 1], log[|log| - 1];
      LogPrefix(db0, log);
      FreshPrefix(db0, log);
      var before := RunLog(db0, front).value;
      MoneyIsConserved(db0, front, before);
      assert OpFresh(before, c);
      ConservedStep(before, c, db, AllDrift(db0, front));
    }
  }

  lemma ConservedStep(db: Db, c: Commit, after: Db, drift: int)
    requires Conserved(db, drift) && Do(db, c) == Ok(after) && OpFresh(db, c)
    ensures Conserved(after, drift + StepDrifts(c, after))
  {
    hide Atomic, LifecycleWrite, Sum, StepDrift;
    if c.Request? && c.op.MovesMoney() {
      hide Conserved, StepDrifts;
      OpConserves(db, c.id, c.op, after, drift);
    } else if c.Request? {
      LifecycleTotal(db, c.id, c.op, after, drift);
    } else {
      SameTotals(db, after);
    }
  }

  // Whole cents never drift: the sum is deposits minus withdrawals.
  lemma {:induction false} NoDriftAtAll(db0: Db, log: seq<Commit>)
    requires WholeCentLog(log) && RunLog(db0, log).Ok?
    ensures AllDrift(db0, log) == 0
  {
    if log != [] {
      var c := log[|log| - 1];
      assert c in log;
      LogPrefix(db0, log);
      NoDriftAtAll(db0, log[..|log| - 1]);
      hide RunLog;
      if c.Request? && c.op.MovesMoney() {
        WholeCentsAreExact(0, c.op.amount);
      }
    }
  }

  // In range the drift is one cent per half-cent debit.
  function TieOfOp(op: Op): nat {
    if op.MovesMoney() && op.Debited().Some? && HalfCentTie(op.amount) then 1 else 0
  }

  function AllTies(log: seq<Commit>): nat {
    if log == [] then 0
    else
      var c := log[|log| - 1];
      AllTies(log[..|log| - 1]) + (if c.Request? then TieOfOp(c.op) else 0)
  }

  lemma StepTies(db: Db, c: Commit, after: Db)
    requires Do(db, c) == Ok(after) && NonNegative(after)
    ensures StepDrifts(c, after) == if c.Request? then TieOfOp(c.op) else 0
  {
    if c.Request? && c.op.MovesMoney() {
      var _, _, _ := AtomicStages(db, c.id, c.op, after);
      hide Atomic, StepDrift, NonNegative, HalfCentTie, Stages, Funds.Refused;
      if c.op.Debited().Some? {
        DriftIsTie(db, c.id, c.op, after, c.op.Debited().value);
      }
      if c.op.Credited().Some? {
        DriftIsTie(db, c.id, c.op, after, c.op.Credited().value);
      }
    }
  }

  lemma {:induction false} AllDriftIsTies(db0: Db, log: seq<Commit>)
    requires NonNegative(db0) && RunLog(db0, log).Ok? && InRangeLog(db0, log)
    ensures AllDrift(db0, log) == AllTies(log)
    decreases |log|
  {
    hide Do, StepDrifts, NonNegative, OpInRange;
    if log != [] {
      var front := log[..|log| - 1];
      LogPrefix(db0, log);
      AllDriftIsTies(db0, front);
      NeverOverdrawn(db0, log, RunLog(db0, log).value);
      StepTies(RunLog(db0, front).value, log[|log| - 1], RunLog(db0, log).value);
    }
  }

  // ----- a condition on the deposits

  // What an operation can add to the sum of all balances: a deposit or payment its
  // amount, a transfer of a half-cent tie one cent.
  function Incoming(op: Op): int {
    if op.Deposit? || op.Pay? then Cents(op.amount)
    else if op.Transfer? && HalfCentTie(op.amount) then 1
    else 0
  }

  function AllIncoming(log: seq<Commit>): int {
    if log == [] then 0
    else
      var c := log[|log| - 1];
      AllIncoming(log[..|log| - 1]) + (if c.Request? then Incoming(c.op) else 0)
  }

  ghost predicate PrintedLog(log: seq<Commit>) {
    forall c | c in log && c.Request? && c.op.MovesMoney() :: Funds.Printed(c.op.amount)
  }

  lemma {:induction false} AtMostSum(m: map<nat, int>, k: nat)
    requires k in m && forall x | x in m :: 0 <= m[x]
    ensures m[k] <= Sum(m)
    decreases |m|
  {
    Take(m, k);
    var rest := m - {k};
    if rest != map[] {
      var x :| x in rest;
      AtMostSum(rest, x);
    }
  }

  lemma OpAdds(db: Db, id: nat, op: Op, after: Db)
    requires op.MovesMoney() && Atomic(db, id, op) == Ok(after) && NonNegative(after)
    ensures Sum(BalanceOf(after)) <= Sum(BalanceOf(db)) + Incoming(op)
  {
    OpTotal(db, id, op, after);
    StepTies(db, Request(id, op), after);
    var _, _, _ := AtomicStages(db, id, op, after);
    hide Atomic, NonNegative, Stages, Funds.Refused, Sum, StepDrifts;
    PositiveCents(op.amount);
  }

  lemma PositiveCents(amount: real)
    requires 0.0 < amount
    ensures 0 <= Cents(amount) && (HalfCentTie(amount) ==> 1 <= Cents(amount))
  {
  }

  lemma StepAdds(db: Db, c: Commit, after: Db)
    requires Do(db, c) == Ok(after) && NonNegative(after)
    ensures Sum(BalanceOf(after)) <= Sum(BalanceOf(db)) + (if c.Request? then Incoming(c.op) else 0)
  {
    hide Atomic, NonNegative, Sum, Cents, HalfCentTie, LifecycleWrite;
    if c.Request? && c.op.MovesMoney() {
      hide Incoming;
      OpAdds(db, c.id, c.op, after);
    } else if c.Request? {
      BalancesStay(db, c.id, c.op, after);
    } else {
      SameTotals(db, after);
    }
  }

  lemma IncomingIsNotNegative(db: Db, c: Commit)
    requires Do(db, c).Ok?
    ensures c.Request? ==> 0 <= Incoming(c.op)
  {
    if c.Request? && c.op.MovesMoney() {
      var _, _, _ := AtomicStages(db, c.id, c.op, Do(db, c).value);
      hide Do, Atomic, Stages;
      PositiveCents(c.op.amount);
    }
  }

  lemma BoundedIsInRange(db: Db, op: Op)
    requires NonNegative(db) && Sum(BalanceOf(db)) <= Funds.WHOLE_AMOUNT_CENTS
    requires op.MovesMoney() ==> Funds.Printed(op.amount)
    ensures OpInRange(db, op)
  {
    hide Funds.Printed, Sum;
    if op.MovesMoney() && op.Debited().Some? && op.Debited().value in db.wallets {
      AtMostSum(BalanceOf(db), op.Debited().value);
    }
  }

  /** If what is there at the start and all that is ever deposited stay within 2^46 units
      together, then every debit is decided within the numeric range. */
  lemma {:induction false} DepositsKeepInRange(db0: Db, log: seq<Commit>, db: Db)
    requires NonNegative(db0) && RunLog(db0, log) == Ok(db) && PrintedLog(log)
    requires Sum(BalanceOf(db0)) + AllIncoming(log) <= Funds.WHOLE_AMOUNT_CENTS
    ensures InRangeLog(db0, log) && Sum(BalanceOf(db)) <= Sum(BalanceOf(db0)) + AllIncoming(log)
    decreases |log|
  {
    hide Do, NonNegative, OpInRange, Sum, Incoming, Funds.Printed;
    if log != [] {
      var front, c := log[..|log| - 1], log[|log| - 1];
      assert c in log && forall d | d in front :: d in log;
      LogPrefix(db0, log);
      var before := RunLog(db0, front).value;
      IncomingIsNotNegative(before, c);
      DepositsKeepInRange(db0, front, before);
      NeverOverdrawn(db0, front, before);
      if c.Request? {
        BoundedIsInRange(before, c.op);
      }
      ExtendRange(db0, front, c, before);
      StepNonNegative(before, c, db);
      assert front + [c] == log;
      StepAdds(before, c, db);
    }
  }

  // ----- the transaction history

  // What a transaction row says about one wallet: received minus sent.
  function Share(tx: Tx, w: nat): int {
    (if tx.receiver == Some(w) then tx.amount else 0) - (if tx.sender == Some(w) then tx.amount else 0)
  }

  ghost function ShareOf(db: Db, w: nat): map<nat, int> {
    map t | t in db.txs :: Share(db.txs[t], w)
  }

  lemma PostReplay(db: Db, id: nat, w: nat, kind: Kind, amount: real, after: Db, x: nat)
    requires w in db.wallets && Post(db, id, w, kind, amount) == Ok(after)
    ensures Replay(after.ledger, x) == Replay(db.ledger, x) + (if x == w then Signed(kind, Cents(amount)) else 0)
    ensures after.txs == db.txs
  {
    hide After, Cents, Fits, Replay;
    var e := after.ledger[|db.ledger|];
    assert after.ledger == db.ledger + [e];
    Append(db.ledger, e, x);
  }

  lemma RowShare(db: Db, id: nat, tx: Tx, after: Db, w: nat)
    requires id !in db.txs && after.txs == db.txs[id := tx]
    ensures Sum(ShareOf(after, w)) == Sum(ShareOf(db, w)) + Share(tx, w)
  {
    hide Sum, Share;
    assert ShareOf(after, w) == ShareOf(db, w)[id := Share(tx, w)];
    Put(ShareOf(db, w), id, Share(tx, w));
  }

  lemma OpHistory(db: Db, id: nat, op: Op, after: Db, w: nat)
    requires op.MovesMoney() && Atomic(db, id, op) == Ok(after) && id !in db.txs
    requires Sum(ShareOf(db, w)) == Replay(db.ledger, w)
    ensures Sum(ShareOf(after, w)) == Replay(after.ledger, w)
  {
    var d0, d1, d2 := AtomicStages(db, id, op, after);
    hide Atomic, Sum, Cents, Replay, Post, Funds.Refused, ShareOf;
    if op.Debited().Some? {
      PostReplay(d0, id, op.Debited().value, Debit, op.amount, d1, w);
    }
    if op.Credited().Some? {
      PostReplay(d1, id, op.Credited().value, Credit, op.amount, d2, w);
    }
    RowShare(db, id, TxOf(op), after, w);
  }

  /** Replaying a wallet's transaction history gives what replaying its ledger gives, for
      any amounts; for whole-cent amounts both are the balance (CacheIsReplay). */
  lemma {:induction false} HistoryIsLedger(db0: Db, log: seq<Commit>, db: Db, w: nat)
    requires Sum(ShareOf(db0, w)) == Replay(db0.ledger, w) && FreshLog(db0, log)
    requires RunLog(db0, log) == Ok(db)
    ensures Sum(ShareOf(db, w)) == Replay(db.ledger, w)
    decreases |log|
  {
    if log != [] {
      var front, c := log[..|log| - 1], log[|log| - 1];
      LogPrefix(db0, log);
      FreshPrefix(db0, log);
      var before := RunLog(db0, front).value;
      HistoryIsLedger(db0, front, before, w);
      assert OpFresh(before, c);
      hide RunLog, FreshLog, Sum, Replay, Atomic, HasWallet;
      if c.Request? && c.op.MovesMoney() {
        OpHistory(before, c.id, c.op, db, w);
      } else {
        assert db.ledger == before.ledger && ShareOf(db, w) == ShareOf(before, w);
      }
    }
  }
}

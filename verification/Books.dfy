/** What every committed state owes its books: the cached balances, the ledger, the
    transaction rows and the payments tell one story. */
module Books {
  import opened Money
  import opened Ledger
  import opened Tables
  import opened Sums
  import Funds

  // ----- the shape of an operation

  // A money operation is: the transaction row, the debit if it has one, the credit if
  // it has one, the payment row if it is a payment.
  ghost predicate Stages(db: Db, id: nat, op: Op, d0: Db, d1: Db, d2: Db, after: Db)
    requires op.MovesMoney()
  {
    && d0 == db.(txs := db.txs[id := TxOf(op)])
    && (if op.Debited().Some?
        then op.Debited().value in d0.wallets && Post(d0, id, op.Debited().value, Debit, op.amount) == Ok(d1)
        else d1 == d0)
    && (if op.Credited().Some?
        then op.Credited().value in d1.wallets && Post(d1, id, op.Credited().value, Credit, op.amount) == Ok(d2)
        else d2 == d1)
    && (if op.Pay?
        then
          && op.key !in Keys(db)
          && after == d2.(payments := d2.payments[id := Payment(id, Cents(op.amount), op.key, Initiated)])
        else after == d2)
  }

  lemma AtomicStages(db: Db, id: nat, op: Op, after: Db) returns (d0: Db, d1: Db, d2: Db)
    requires op.MovesMoney() && Atomic(db, id, op) == Ok(after)
    ensures Stages(db, id, op, d0, d1, d2, after)
    ensures 0.0 < op.amount && Fits(Cents(op.amount))
    ensures op.Debited().Some? ==>
              op.Debited().value in db.wallets &&
              !Funds.Refused(db.wallets[op.Debited().value].balance, op.amount)
    ensures op.Debited() != op.Credited()
    ensures forall w: nat | op.Touches(w) :: w in db.wallets && db.wallets[w].status == Active
  {
    hide Cents, After, Fits, Funds.Refused;
    d0 := AddTx(db, id, TxOf(op)).value;
    d1 := if op.Debited().Some? then Post(d0, id, op.Debited().value, Debit, op.amount).value else d0;
    d2 := if op.Credited().Some? then Post(d1, id, op.Credited().value, Credit, op.amount).value else d1;
  }

  // ----- one wallet

  // The cached balance is the last recorded running balance, and exceeds the replay of
  // the ledger by `drift` cents.
  ghost predicate Tally(db: Db, w: nat, drift: int) {
    && w in db.wallets
    && db.wallets[w].balance == LastAfter(db.ledger, w)
    && db.wallets[w].balance == Replay(db.ledger, w) + drift
  }

  // A wallet that is not there yet has no entries.
  ghost predicate Accounted(db: Db, w: nat, drift: int) {
    if w in db.wallets then Tally(db, w, drift) else Of(db.ledger, w) == [] && drift == 0
  }

  lemma PostAccounted(db: Db, id: nat, w: nat, kind: Kind, amount: real, after: Db, x: nat, drift: int)
    requires w in db.wallets && Post(db, id, w, kind, amount) == Ok(after)
    requires Accounted(db, x, drift) && 0.0 < amount
    ensures Accounted(after, x, drift + (if x == w then DriftOf(kind, amount, after.wallets[w].balance) else 0))
  {
    hide After, Cents, Fits, DriftOf, Of, Replay, LastAfter;
    var e := after.ledger[|db.ledger|];
    assert after.ledger == db.ledger + [e];
    Append(db.ledger, e, x);
    PostingDrift(db.wallets[w].balance, kind, amount);
  }

  // ----- one change on one wallet

  // What an operation adds to the drift of a wallet that it leaves with this balance.
  function OpDrift(op: Op, w: nat, balanceAfter: int): int {
    if !op.MovesMoney() then 0
    else if op.Debited() == Some(w) then DriftOf(Debit, op.amount, balanceAfter)
    else if op.Credited() == Some(w) then DriftOf(Credit, op.amount, balanceAfter)
    else 0
  }

  function StepDrift(c: Commit, after: Db, w: nat): int {
    if c.Request? && w in after.wallets then OpDrift(c.op, w, after.wallets[w].balance) else 0
  }

  lemma PostElsewhere(db: Db, id: nat, w: nat, kind: Kind, amount: real, after: Db)
    requires w in db.wallets && Post(db, id, w, kind, amount) == Ok(after)
    ensures after.wallets == db.wallets[w := after.wallets[w]]
    ensures after.wallets.Keys == db.wallets.Keys
  {
    hide After, Cents, Fits;
  }

  // The debit stage or the credit stage of an operation, if it has one.
  lemma StageAccounted(db: Db, id: nat, w: Option<nat>, kind: Kind, amount: real, after: Db, x: nat, drift: int)
    requires if w.Some? then w.value in db.wallets && Post(db, id, w.value, kind, amount) == Ok(after) else after == db
    requires Accounted(db, x, drift) && 0.0 < amount
    ensures after.wallets.Keys == db.wallets.Keys
    ensures forall y | y in db.wallets && Some(y) != w :: after.wallets[y] == db.wallets[y]
    ensures w == Some(x) ==> x in after.wallets
    ensures Accounted(after, x,
              drift + (if w == Some(x) then DriftOf(kind, amount, after.wallets[x].balance) else 0))
  {
    hide Post, Accounted, DriftOf;
    if w.Some? {
      PostElsewhere(db, id, w.value, kind, amount, after);
      PostAccounted(db, id, w.value, kind, amount, after, x, drift);
    }
  }

  lemma OpAccounted(db: Db, id: nat, op: Op, after: Db, x: nat, drift: int)
    requires op.MovesMoney() && Atomic(db, id, op) == Ok(after) && Accounted(db, x, drift)
    ensures Accounted(after, x, drift + StepDrift(Request(id, op), after, x))
  {
    hide Accounted, Atomic, Post, TxOf, Funds.Refused, DriftOf, Keys, Cents, Fits;
    var d0, d1, d2 := AtomicStages(db, id, op, after);
    SameAccount(db, d0, x, drift);
    StageAccounted(d0, id, op.Debited(), Debit, op.amount, d1, x, drift);
    var drift1 := drift + (if op.Debited() == Some(x) then DriftOf(Debit, op.amount, d1.wallets[x].balance) else 0);
    StageAccounted(d1, id, op.Credited(), Credit, op.amount, d2, x, drift1);
    SameAccount(d2, after, x, drift + StepDrift(Request(id, op), after, x));
  }

  lemma SameAccount(db: Db, after: Db, x: nat, drift: int)
    requires after.ledger == db.ledger && Accounted(db, x, drift)
    requires x in db.wallets <==> x in after.wallets
    requires x in db.wallets ==> after.wallets[x].balance == db.wallets[x].balance
    ensures Accounted(after, x, drift)
  {
  }

  lemma StepAccounted(db: Db, c: Commit, after: Db, x: nat, drift: int)
    requires Do(db, c) == Ok(after) && Accounted(db, x, drift)
    ensures Accounted(after, x, drift + StepDrift(c, after, x))
  {
    hide Atomic, DriftOf, HasWallet;
    if c.Request? && c.op.MovesMoney() {
      OpAccounted(db, c.id, c.op, after, x, drift);
    } else if x in after.wallets && x !in db.wallets {
      NothingToReplay(db.ledger, x);
      hide Of, Replay, LastAfter;
    } else {
      hide Of, Replay, LastAfter, Accounted;
      SameAccount(db, after, x, drift);
    }
  }

  lemma {:induction false} NothingToReplay(ledger: seq<Entry>, w: nat)
    requires Of(ledger, w) == []
    ensures Replay(ledger, w) == 0 && LastAfter(ledger, w) == 0
  {
    if ledger != [] {
      NothingToReplay(ledger[..|ledger| - 1], w);
    }
  }

  // ----- runs of the log

  // The drift that a run of the log builds up on a wallet.
  function Drift(db0: Db, log: seq<Commit>, w: nat): int
    requires RunLog(db0, log).Ok?
  {
    if log == [] then 0
    else Drift(db0, log[..|log| - 1], w) + StepDrift(log[|log| - 1], RunLog(db0, log).value, w)
  }

  lemma LogPrefix(db0: Db, log: seq<Commit>)
    requires log != [] && RunLog(db0, log).Ok?
    ensures RunLog(db0, log[..|log| - 1]).Ok?
    ensures Do(RunLog(db0, log[..|log| - 1]).value, log[|log| - 1]) == RunLog(db0, log)
    ensures InRangeLog(db0, log) ==> InRangeLog(db0, log[..|log| - 1])
  {
    hide Do, OpInRange;
    var front := log[..|log| - 1];
    if InRangeLog(db0, log) {
      forall i | 0 <= i < |front| && front[i].Request? && RunLog(db0, front[..i]).Ok?
        ensures OpInRange(RunLog(db0, front[..i]).value, front[i].op)
      {
        assert front[..i] == log[..i];
      }
    }
  }

  // The books of every wallet before the first request.
  ghost predicate Balanced(db: Db) {
    forall w: nat :: Accounted(db, w, 0)
  }

  /** Exact drift, for arbitrary amounts and balances of any size and sign: after any
      committed run a wallet's cached balance is its last recorded running balance, and its
      distance from the replay of its ledger is what its half-cent postings have left. */
  lemma {:induction false} ExactDrift(db0: Db, log: seq<Commit>, db: Db, w: nat)
    requires Balanced(db0) && RunLog(db0, log) == Ok(db)
    ensures Accounted(db, w, Drift(db0, log, w))
    decreases |log|
  {
    hide Accounted, Do, StepDrift;
    if log != [] {
      var front := log[..|log| - 1];
      LogPrefix(db0, log);
      ExactDrift(db0, front, RunLog(db0, front).value, w);
      StepAccounted(RunLog(db0, front).value, log[|log| - 1], db, w, Drift(db0, front, w));
    }
  }

  // ----- debits decided within the numeric range

  // The numeric range in which the funds check is sound.
  ghost predicate OpInRange(db: Db, op: Op) {
    op.MovesMoney() && op.Debited().Some? && op.Debited().value in db.wallets ==>
      Funds.InRange(db.wallets[op.Debited().value].balance, op.amount)
  }

  // Every committed debit was decided within the numeric range.
  ghost predicate InRangeLog(db0: Db, log: seq<Commit>) {
    forall i | 0 <= i < |log| && log[i].Request? && RunLog(db0, log[..i]).Ok? ::
      OpInRange(RunLog(db0, log[..i]).value, log[i].op)
  }

  lemma ExtendRange(db0: Db, log: seq<Commit>, c: Commit, db: Db)
    requires InRangeLog(db0, log) && RunLog(db0, log) == Ok(db) && (c.Request? ==> OpInRange(db, c.op))
    ensures InRangeLog(db0, log + [c])
  {
    hide RunLog, OpInRange;
    var longer := log + [c];
    forall i | 0 <= i < |longer| && longer[i].Request? && RunLog(db0, longer[..i]).Ok?
      ensures OpInRange(RunLog(db0, longer[..i]).value, longer[i].op)
    {
      assert longer[..i] == log[..i];
      assert log[..|log|] == log;
    }
  }

  ghost predicate NonNegative(db: Db) {
    forall w | w in db.wallets :: 0 <= db.wallets[w].balance
  }

  lemma PostNonNegative(db: Db, id: nat, w: nat, kind: Kind, amount: real, after: Db)
    requires w in db.wallets && Post(db, id, w, kind, amount) == Ok(after) && NonNegative(db)
    requires 0.0 < amount && (kind == Debit ==> amount * 100.0 - db.wallets[w].balance as real < 0.5)
    ensures NonNegative(after)
  {
    hide After, Cents, Fits;
    if kind == Credit {
      CreditHasNoDrift(db.wallets[w].balance, amount);
    } else {
      DebitStaysNonNegative(db.wallets[w].balance, amount);
    }
  }

  lemma OpNonNegative(db: Db, id: nat, op: Op, after: Db)
    requires op.MovesMoney() && Atomic(db, id, op) == Ok(after) && OpInRange(db, op) && NonNegative(db)
    ensures NonNegative(after)
  {
    var d0, d1, d2 := AtomicStages(db, id, op, after);
    hide Atomic, Post, TxOf, Funds.InRange, Funds.Refused, Keys, Cents, Fits;
    if op.Debited().Some? {
      var w := op.Debited().value;
      Funds.AcceptedIsCovered(db.wallets[w].balance, op.amount);
      PostNonNegative(d0, id, w, Debit, op.amount, d1);
    }
    if op.Credited().Some? {
      PostNonNegative(d1, id, op.Credited().value, Credit, op.amount, d2);
    }
  }

  lemma StepNonNegative(db: Db, c: Commit, after: Db)
    requires Do(db, c) == Ok(after) && NonNegative(db) && (c.Request? ==> OpInRange(db, c.op))
    ensures NonNegative(after)
  {
    hide Atomic, OpInRange, HasWallet;
    if c.Request? && c.op.MovesMoney() {
      OpNonNegative(db, c.id, c.op, after);
    }
  }

  // The half-cent debits of a wallet.
  function OpTies(op: Op, w: nat): nat {
    if op.MovesMoney() && op.Debited() == Some(w) && HalfCentTie(op.amount) then 1 else 0
  }

  function Ties(log: seq<Commit>, w: nat): nat {
    if log == [] then 0
    else
      var c := log[|log| - 1];
      Ties(log[..|log| - 1], w) + (if c.Request? then OpTies(c.op, w) else 0)
  }

  // With no balance below zero only half-cent debits drift, and each does.
  lemma DriftIsTie(db: Db, id: nat, op: Op, after: Db, x: nat)
    requires op.MovesMoney() && Atomic(db, id, op) == Ok(after) && NonNegative(after)
    ensures StepDrift(Request(id, op), after, x) == OpTies(op, x)
  {
    hide HalfCentTie;
    var d0, d1, d2 := AtomicStages(db, id, op, after);
    hide Atomic, TxOf, Funds.Refused, Keys, Cents, Fits, After;
    if op.Debited() == Some(x) && HalfCentTie(op.amount) {
      TieNeverClears(d0.wallets[x].balance, op.amount);
    }
  }

  /** Within the numeric range no debit overdraws, and the drift of a wallet is one cent for
      each of its debits that was a half-cent tie.  Credits never drift. */
  lemma {:induction false} NeverOverdrawn(db0: Db, log: seq<Commit>, db: Db)
    requires NonNegative(db0) && RunLog(db0, log) == Ok(db) && InRangeLog(db0, log)
    ensures NonNegative(db)
    ensures forall w: nat :: Drift(db0, log, w) == Ties(log, w)
    decreases |log|
  {
    if log != [] {
      var front, c := log[..|log| - 1], log[|log| - 1];
      LogPrefix(db0, log);
      var before := RunLog(db0, front).value;
      NeverOverdrawn(db0, front, before);
      assert c.Request? ==> OpInRange(before, c.op);
      StepNonNegative(before, c, db);
      hide InRangeLog, OpInRange, NonNegative, OpTies, StepDrift, RunLog;
      forall w: nat
        ensures StepDrift(c, db, w) == if c.Request? then OpTies(c.op, w) else 0
      {
        StepTie(before, c, db, w);
      }
    }
  }

  lemma StepTie(db: Db, c: Commit, after: Db, w: nat)
    requires Do(db, c) == Ok(after) && NonNegative(after)
    ensures StepDrift(c, after, w) == if c.Request? then OpTies(c.op, w) else 0
  {
    if c.Request? && c.op.MovesMoney() {
      hide OpTies, StepDrift, NonNegative;
      DriftIsTie(db, c.id, c.op, after, w);
    }
  }

  /** In range the cache is the replay exactly when no debit of the wallet was a tie. */
  lemma CacheIsReplayIffNoTies(db0: Db, log: seq<Commit>, db: Db, w: nat)
    requires Balanced(db0) && NonNegative(db0) && RunLog(db0, log) == Ok(db) && InRangeLog(db0, log)
    requires w in db.wallets
    ensures db.wallets[w].balance == Replay(db.ledger, w) <==> Ties(log, w) == 0
  {
    hide Replay, LastAfter, RunLog, InRangeLog, Ties, Drift, Balanced, NonNegative;
    ExactDrift(db0, log, db, w);
    NeverOverdrawn(db0, log, db);
  }

  // ----- whole-cent amounts

  predicate WholeCentLog(log: seq<Commit>) {
    forall c | c in log && c.Request? && c.op.MovesMoney() :: WholeCents(c.op.amount)
  }

  lemma {:induction false} WholeCentsNeverDrift(db0: Db, log: seq<Commit>, w: nat)
    requires WholeCentLog(log) && RunLog(db0, log).Ok?
    ensures Drift(db0, log, w) == 0
  {
    if log != [] {
      var c := log[|log| - 1];
      assert c in log;
      LogPrefix(db0, log);
      WholeCentsNeverDrift(db0, log[..|log| - 1], w);
      hide RunLog;
      if c.Request? && c.op.MovesMoney() {
        WholeCentsAreExact(0, c.op.amount);
      }
    }
  }

  /** For whole-cent amounts the cache is the replay, and equals the last running balance:
      at every balance, whatever the funds check let through. */
  lemma CacheIsReplay(db0: Db, log: seq<Commit>, db: Db, w: nat)
    requires Balanced(db0) && RunLog(db0, log) == Ok(db) && WholeCentLog(log) && w in db.wallets
    ensures db.wallets[w].balance == Replay(db.ledger, w) == LastAfter(db.ledger, w)
  {
    hide Replay, LastAfter, RunLog, WholeCentLog, Drift, Balanced;
    ExactDrift(db0, log, db, w);
    WholeCentsNeverDrift(db0, log, w);
  }

  // ----- entries

  lemma OpEntries(db: Db, id: nat, op: Op, after: Db)
    requires op.MovesMoney() && Atomic(db, id, op) == Ok(after)
    ensures after.wallets.Keys == db.wallets.Keys
    ensures forall e | e in after.ledger ::
              e in db.ledger || (op.Touches(e.walletId) && e.walletId in db.wallets && e.txId == id)
  {
    var d0, d1, d2 := AtomicStages(db, id, op, after);
    hide Atomic, Cents, After, Fits, Funds.Refused, HalfCentTie;
    if op.Debited().Some? {
      PostEntries(d0, id, op.Debited().value, Debit, op.amount, d1);
    }
    if op.Credited().Some? {
      PostEntries(d1, id, op.Credited().value, Credit, op.amount, d2);
    }
  }

  lemma PostEntries(db: Db, id: nat, w: nat, kind: Kind, amount: real, after: Db)
    requires w in db.wallets && Post(db, id, w, kind, amount) == Ok(after)
    ensures after.wallets.Keys == db.wallets.Keys && after.txs == db.txs && after.payments == db.payments
    ensures forall e | e in after.ledger :: e in db.ledger || (e.walletId == w && e.txId == id)
  {
    hide After, Cents, Fits;
  }

  // ----- the chain of running balances

  ghost predicate AllChained(db: Db) {
    forall w: nat :: Chained(db.ledger, w)
  }

  lemma PostChained(db: Db, id: nat, w: nat, kind: Kind, amount: real, after: Db)
    requires w in db.wallets && Post(db, id, w, kind, amount) == Ok(after)
    requires AllChained(db) && db.wallets[w].balance == LastAfter(db.ledger, w) && WholeCents(amount)
    ensures AllChained(after)
  {
    hide After, Cents, Fits, Chained, LastAfter, WholeCents;
    var e := after.ledger[|db.ledger|];
    assert after.ledger == db.ledger + [e];
    WholeCentsAreExact(db.wallets[w].balance, amount);
    forall x: nat
      ensures Chained(after.ledger, x)
    {
      AppendChained(db.ledger, e, x);
    }
  }

  lemma OpChained(db: Db, id: nat, op: Op, after: Db)
    requires op.MovesMoney() && Atomic(db, id, op) == Ok(after) && AllChained(db) && WholeCents(op.amount)
    requires forall w | w in db.wallets :: db.wallets[w].balance == LastAfter(db.ledger, w)
    ensures AllChained(after)
  {
    var d0, d1, d2 := AtomicStages(db, id, op, after);
    hide Atomic, Funds.Refused, Chained, LastAfter, WholeCents, Cents, After, Fits;
    assert AllChained(d0);
    if op.Debited().Some? {
      PostChained(d0, id, op.Debited().value, Debit, op.amount, d1);
    }
    if op.Credited().Some? {
      var w := op.Credited().value;
      assert d1.wallets[w].balance == LastAfter(d1.ledger, w) by {
        if op.Debited().Some? {
          Append(d0.ledger, d1.ledger[|d0.ledger|], w);
          assert d1.ledger == d0.ledger + [d1.ledger[|d0.ledger|]];
        }
      }
      PostChained(d1, id, w, Credit, op.amount, d2);
    }
  }

  /** For whole-cent amounts every running balance is the one before it plus or minus the
      amount of its entry, from zero on, at every balance. */
  lemma {:induction false} LedgerIsChained(db0: Db, log: seq<Commit>, db: Db)
    requires Balanced(db0) && AllChained(db0) && RunLog(db0, log) == Ok(db) && WholeCentLog(log)
    ensures AllChained(db)
    decreases |log|
  {
    hide WholeCents, Balanced, AllChained, Accounted;
    if log != [] {
      var front, c := log[..|log| - 1], log[|log| - 1];
      assert c in log && forall d | d in front :: d in log;
      LogPrefix(db0, log);
      var before := RunLog(db0, front).value;
      LedgerIsChained(db0, front, before);
      hide RunLog, Do;
      LastIsBalance(db0, front, before);
      ChainedStep(before, c, db);
    }
  }

  lemma LastIsBalance(db0: Db, log: seq<Commit>, db: Db)
    requires Balanced(db0) && RunLog(db0, log) == Ok(db)
    ensures forall w | w in db.wallets :: db.wallets[w].balance == LastAfter(db.ledger, w)
  {
    hide RunLog, Balanced, LastAfter, Replay, Drift;
    forall w | w in db.wallets
      ensures db.wallets[w].balance == LastAfter(db.ledger, w)
    {
      ExactDrift(db0, log, db, w);
    }
  }

  lemma ChainedStep(db: Db, c: Commit, after: Db)
    requires AllChained(db) && Do(db, c) == Ok(after)
    requires forall w | w in db.wallets :: db.wallets[w].balance == LastAfter(db.ledger, w)
    requires c.Request? && c.op.MovesMoney() ==> WholeCents(c.op.amount)
    ensures AllChained(after)
  {
    hide Chained, Atomic, HasWallet, LastAfter, WholeCents;
    if c.Request? && c.op.MovesMoney() {
      OpChained(db, c.id, c.op, after);
    } else {
      assert after.ledger == db.ledger;
    }
  }
}

/** All or nothing: every committed transaction row has exactly the ledger entries of its
    type, every payment has its deposit, and nothing else is in the tables. */
module Records {
  import opened Money
  import opened Ledger
  import opened Tables
  import opened Books
  import opened Conservation

  ghost predicate IsEntry(e: Entry, t: nat, w: Option<nat>, kind: Kind, amount: int) {
    e.txId == t && Some(e.walletId) == w && e.kind == kind && e.amount == amount
  }

  // The entries a transaction row stands for.
  ghost predicate Booked(t: nat, tx: Tx, written: seq<Entry>) {
    && tx.status == TxStatus.Success
    && match tx.kind
       case DepositTx =>
         |written| == 1 && tx.sender.None? && IsEntry(written[0], t, tx.receiver, Credit, tx.amount)
       case WithdrawTx =>
         |written| == 1 && tx.receiver.None? && IsEntry(written[0], t, tx.sender, Debit, tx.amount)
       case TransferTx =>
         && |written| == 2 && tx.sender != tx.receiver
         && IsEntry(written[0], t, tx.sender, Debit, tx.amount)
         && IsEntry(written[1], t, tx.receiver, Credit, tx.amount)
  }

  ghost predicate PaidFor(db: Db, p: nat) {
    && p in db.payments && p in db.txs
    && db.payments[p].txId == p
    && db.txs[p].kind == DepositTx && db.txs[p].amount == db.payments[p].amount
    && (db.payments[p].status in {Initiated, PaymentStatus.Success, PaymentStatus.Failed})
  }

  ghost predicate UniqueKeys(db: Db) {
    forall p, q | p in db.payments && q in db.payments && db.payments[p].key == db.payments[q].key :: p == q
  }

  ghost predicate UniqueOwners(db: Db) {
    forall x, y | x in db.wallets && y in db.wallets && db.wallets[x].owner == db.wallets[y].owner :: x == y
  }

  ghost predicate Recorded(db: Db) {
    && (forall t | t in db.txs :: Booked(t, db.txs[t], Written(db.ledger, t)))
    && (forall e | e in db.ledger :: e.txId in db.txs && e.walletId in db.wallets)
    && (forall p | p in db.payments :: PaidFor(db, p))
    && UniqueKeys(db)
    && UniqueOwners(db)
  }

  lemma PostWritten(db: Db, id: nat, w: nat, kind: Kind, amount: real, after: Db)
    requires w in db.wallets && Post(db, id, w, kind, amount) == Ok(after)
    ensures after.txs == db.txs && after.payments == db.payments
    ensures forall t: nat | t != id :: Written(after.ledger, t) == Written(db.ledger, t)
    ensures |Written(after.ledger, id)| == |Written(db.ledger, id)| + 1
    ensures Written(after.ledger, id)[..|Written(db.ledger, id)|] == Written(db.ledger, id)
    ensures IsEntry(Written(after.ledger, id)[|Written(db.ledger, id)|], id, Some(w), kind, Cents(amount))
  {
    hide After, Cents, Fits, Written;
    var e := after.ledger[|db.ledger|];
    assert after.ledger == db.ledger + [e];
    forall t: nat
      ensures Written(after.ledger, t) == if e.txId == t then Written(db.ledger, t) + [e] else Written(db.ledger, t)
    {
      AppendWritten(db.ledger, e, t);
    }
  }

  lemma OpBooked(db: Db, id: nat, op: Op, after: Db)
    requires op.MovesMoney() && Atomic(db, id, op) == Ok(after) && Recorded(db) && id !in db.txs
    ensures after.txs == db.txs[id := TxOf(op)]
    ensures Booked(id, TxOf(op), Written(after.ledger, id))
    ensures forall t: nat | t != id :: Written(after.ledger, t) == Written(db.ledger, t)
  {
    hide Atomic, Recorded;
    NewIsUnwritten(db, id);
    var d0, d1, d2 := AtomicStages(db, id, op, after);
    hide Post, Cents, Written, Booked, Keys, Funds.Refused;
    if op.Debited().Some? {
      PostWritten(d0, id, op.Debited().value, Debit, op.amount, d1);
    }
    if op.Credited().Some? {
      PostWritten(d1, id, op.Credited().value, Credit, op.amount, d2);
    }
    BookedByOp(id, op, Written(after.ledger, id));
  }

  lemma NewIsUnwritten(db: Db, id: nat)
    requires Recorded(db) && id !in db.txs
    ensures Written(db.ledger, id) == []
  {
    hide Written, Booked, UniqueKeys, UniqueOwners, PaidFor;
    NothingWritten(db.ledger, id);
  }

  lemma BookedByOp(id: nat, op: Op, written: seq<Entry>)
    requires op.MovesMoney() && op.Debited() != op.Credited()
    requires |written| == (if op.Transfer? then 2 else 1)
    requires op.Debited().Some? ==> IsEntry(written[0], id, op.Debited(), Debit, Cents(op.amount))
    requires op.Credited().Some? ==> IsEntry(written[|written| - 1], id, op.Credited(), Credit, Cents(op.amount))
    ensures Booked(id, TxOf(op), written)
  {
    hide Cents;
  }

  lemma OpPayments(db: Db, id: nat, op: Op, after: Db)
    requires op.MovesMoney() && Atomic(db, id, op) == Ok(after)
    ensures op.Pay? ==>
              && op.key !in Keys(db)
              && after.payments == db.payments[id := Payment(id, Cents(op.amount), op.key, Initiated)]
    ensures !op.Pay? ==> after.payments == db.payments
    ensures after.txs == db.txs[id := TxOf(op)]
    ensures forall x | x in db.wallets :: x in after.wallets && after.wallets[x].owner == db.wallets[x].owner
    ensures forall x | x in db.wallets :: x in after.wallets && after.wallets[x].status == db.wallets[x].status
    ensures after.wallets.Keys == db.wallets.Keys
  {
    var d0, d1, d2 := AtomicStages(db, id, op, after);
    hide Atomic, Cents, After, Fits, Funds.Refused, Keys;
  }

  lemma OwnersStayUnique(db: Db, after: Db)
    requires UniqueOwners(db) && after.wallets.Keys == db.wallets.Keys
    requires forall x | x in db.wallets :: x in after.wallets && after.wallets[x].owner == db.wallets[x].owner
    ensures UniqueOwners(after)
  {
  }

  lemma PaymentsStayPaid(db: Db, id: nat, op: Op, after: Db)
    requires op.MovesMoney() && id !in db.txs && id !in db.payments
    requires forall p | p in db.payments :: PaidFor(db, p)
    requires after.txs == db.txs[id := TxOf(op)]
    requires op.Pay? ==>
               after.payments == db.payments[id := Payment(id, Cents(op.amount), op.key, Initiated)]
    requires !op.Pay? ==> after.payments == db.payments
    ensures forall p | p in after.payments :: PaidFor(after, p)
  {
    hide Cents;
    forall p | p in after.payments
      ensures PaidFor(after, p)
    {
      assert p == id || PaidFor(db, p);
    }
  }

  lemma RecordedMoney(db: Db, id: nat, op: Op, after: Db)
    requires op.MovesMoney() && Atomic(db, id, op) == Ok(after) && Recorded(db)
    requires id !in db.txs && id !in db.payments
    ensures Recorded(after)
  {
    hide Atomic, Cents, Written, Booked, TxOf, PaidFor, UniqueKeys, UniqueOwners, Keys;
    OpBooked(db, id, op, after);
    OpPayments(db, id, op, after);
    OpEntries(db, id, op, after);
    forall t | t in after.txs
      ensures Booked(t, after.txs[t], Written(after.ledger, t))
    {
      assert t == id || Booked(t, db.txs[t], Written(db.ledger, t));
    }
    PaymentsStayPaid(db, id, op, after);
    KeysStayUnique(db, id, op, after);
    OwnersStayUnique(db, after);
  }

  lemma KeysStayUnique(db: Db, id: nat, op: Op, after: Db)
    requires op.MovesMoney() && UniqueKeys(db) && id !in db.payments
    requires op.Pay? ==>
               && op.key !in Keys(db)
               && after.payments == db.payments[id := Payment(id, Cents(op.amount), op.key, Initiated)]
    requires !op.Pay? ==> after.payments == db.payments
    ensures UniqueKeys(after)
  {
    hide Cents;
    forall p | p in db.payments
      ensures db.payments[p].key in Keys(db)
    {
    }
  }

  lemma RecordedLifecycle(db: Db, id: nat, op: Op, after: Db)
    requires !op.MovesMoney() && LifecycleWrite(db, id, op) == Ok(after) && Recorded(db)
    ensures Recorded(after)
  {
    hide Written, Booked;
    forall p | p in after.payments
      ensures PaidFor(after, p)
    {
      assert PaidFor(db, p);
    }
  }

  lemma RecordedStatus(db: Db, p: nat, success: bool, after: Db)
    requires SetPayment(db, p, success) == Ok(after) && Recorded(db)
    ensures Recorded(after)
  {
    hide Written, Booked;
    OwnersStayUnique(db, after);
    forall q | q in after.payments
      ensures PaidFor(after, q)
    {
      assert PaidFor(db, q);
    }
  }

  /** All or nothing: in every committed state each transaction row is SUCCESS with exactly
      the entries of its type, each entry belongs to such a row, each payment has its
      deposit, and idempotency keys and wallet owners are unique. */
  lemma {:induction false} BooksAreRecorded(db0: Db, log: seq<Commit>, db: Db)
    requires Recorded(db0) && FreshLog(db0, log) && RunLog(db0, log) == Ok(db)
    ensures Recorded(db)
    decreases |log|
  {
    if log != [] {
      var front, c := log[..|log| - 1], log[|log| - 1];
      LogPrefix(db0, log);
      FreshPrefix(db0, log);
      var before := RunLog(db0, front).value;
      BooksAreRecorded(db0, front, before);
      assert OpFresh(before, c);
      hide RunLog, FreshLog, Recorded, Atomic, LifecycleWrite, SetPayment;
      if c.Request? && c.op.MovesMoney() {
        RecordedMoney(before, c.id, c.op, db);
      } else if c.Request? {
        RecordedLifecycle(before, c.id, c.op, db);
      } else {
        RecordedStatus(before, c.payment, c.success, db);
      }
    }
  }

  /** The history query and the ledger correspond one to one: a transaction that a wallet
      received is one credit of it, one that it sent is one debit, of the same amount, and
      a transaction outside its history has no entry of it. */
  lemma HistoryMatchesEntries(db: Db, t: nat, w: nat)
    requires Recorded(db) && t in db.txs
    ensures var mine := Of(Written(db.ledger, t), w);
      && (t in FindUserTransactions(db, w) <==> mine != [])
      && (db.txs[t].receiver == Some(w) ==> |mine| == 1 && IsEntry(mine[0], t, Some(w), Credit, db.txs[t].amount))
      && (db.txs[t].sender == Some(w) ==> |mine| == 1 && IsEntry(mine[0], t, Some(w), Debit, db.txs[t].amount))
  {
    hide Written;
    var written := Written(db.ledger, t);
    assert Booked(t, db.txs[t], written);
    if |written| == 1 {
      OfOne(written, w);
    } else {
      OfTwo(written, w);
    }
  }

  // A debit and a credit of the same amount.
  predicate Paired(written: seq<Entry>) {
    && |written| == 2 && written[0].amount == written[1].amount
    && written[0].kind == Debit && written[1].kind == Credit
  }

  /** Double entry: a committed transaction is a debit paired with a credit if and only if it
      is a transfer; deposits, payments and withdrawals write one side only. */
  lemma PairedIffTransfer(db: Db, t: nat)
    requires Recorded(db) && t in db.txs
    ensures Paired(Written(db.ledger, t)) <==> db.txs[t].kind == TransferTx
    ensures db.txs[t].kind != TransferTx ==> |Written(db.ledger, t)| == 1
  {
    hide Written;
    assert Booked(t, db.txs[t], Written(db.ledger, t));
  }

  lemma OfOne(written: seq<Entry>, w: nat)
    requires |written| == 1
    ensures Of(written, w) == if written[0].walletId == w then written else []
  {
    assert written[..0] == [];
    assert [] + [written[0]] == written;
  }

  lemma OfTwo(written: seq<Entry>, w: nat)
    requires |written| == 2 && written[0].walletId != written[1].walletId
    ensures Of(written, w) == (if written[0].walletId == w then [written[0]]
                               else if written[1].walletId == w then [written[1]] else [])
  {
    OfOne(written[..1], w);
  }
}

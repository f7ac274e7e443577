/** The services and repositories as they run alone: tables, Redis strings and queues
    changed in place, each service method proved against its simple form. */
module Bank {
  import opened Money
  import opened Ledger
  import opened Tables
  import opened Engine
  import Funds

  datatype Job = Job(name: string, payment: nat, attempts: nat)

  class EventService {
    var paymentQueue: seq<Job>
    var webhookQueue: seq<Job>

    constructor ()
      ensures paymentQueue == [] && webhookQueue == []
    {
      paymentQueue, webhookQueue := [], [];
    }

    method PublishPaymentEvent(name: string, payment: nat)
      modifies this`paymentQueue
      ensures paymentQueue == old(paymentQueue) + [Job(name, payment, 3)]
    {
      paymentQueue := paymentQueue + [Job(name, payment, 3)];
    }

    method PublishWebhookEvent(name: string, payment: nat)
      modifies this`webhookQueue
      ensures webhookQueue == old(webhookQueue) + [Job(name, payment, 5)]
    {
      webhookQueue := webhookQueue + [Job(name, payment, 5)];
    }
  }

  // A service call did what its simple form does, or failed the same way and left the
  // tables alone.
  ghost predicate Settled(before: Db, after: Db, id: nat, op: Op, r: Result<Tx>)
    requires op.MovesMoney()
  {
    match Atomic(before, id, op)
    case Ok(db) => after == db && id in db.txs && r == Ok(db.txs[id])
    case Err(e) => after == before && r == Err(e)
  }

  // The same for a lifecycle call whose read and write nobody comes between.
  ghost predicate Changed(before: Db, after: Db, id: nat, op: Op, r: Result<Wallet>)
    requires !op.MovesMoney()
  {
    match Lifecycle(before, id, op)
    case Ok(db) =>
      var w := if op.Create? then id else op.w;
      after == db && w in db.wallets && r == Ok(db.wallets[w])
    case Err(e) => after == before && r == Err(e)
  }

  // What the calls of processPayment share: the tables, the Redis strings, and the payments
  // announced so far.
  datatype Scene = Scene(db: Db, cache: map<string, Cell>, keyLocks: map<string, Cell>, announced: seq<nat>)

  function Payments(queue: seq<Job>): seq<nat> {
    seq(|queue|, i requires 0 <= i < |queue| => queue[i].payment)
  }

  /** One call of processPayment at time `now`, with nobody in between. */
  ghost predicate PaymentCalled(before: Scene, after: Scene, id: nat, op: Op, now: nat, r: Result<nat>)
    requires op.Pay?
  {
    var key := op.key;
    // a missing key, a cached response or a held lock: nothing is written at all
    if key == "" then after == before && r == Err(MissingKey)
    else if Alive(before.cache, key, now) then after == before && r == Ok(before.cache[key].value)
    else if Alive(before.keyLocks, key, now) then after == before && r == Err(KeyBusy)
    else
      // otherwise the transaction decides, and the lock is released either way
      && after.keyLocks == before.keyLocks - {key}
      && match Atomic(before.db, id, op)
         case Ok(db) =>
           && r == Ok(id) && after.db == db
           && after.cache == before.cache[key := Cell(id, now + CACHE_MS)]
           && after.announced == before.announced + [id]
         case Err(e) =>
           && r == Err(e) && after.db == before.db && after.cache == before.cache
           && after.announced == before.announced
  }

  class Bank {
    var wallets: map<nat, Wallet>
    var ledger: seq<Entry>
    var txs: map<nat, Tx>
    var payments: map<nat, Payment>
    var cache: map<string, Cell>
    var keyLocks: map<string, Cell>
    const events: EventService

    constructor (events: EventService)
      ensures Contents() == Db(map[], [], map[], map[]) && cache == map[] && keyLocks == map[]
      ensures this.events == events
    {
      wallets, ledger, txs, payments := map[], [], map[], map[];
      cache, keyLocks := map[], map[];
      this.events := events;
    }

    function Contents(): Db
      reads this
    {
      Db(wallets, ledger, txs, payments)
    }

    // ----- repositories

    method CreateTransaction(id: nat, data: Tx) returns (r: Result<Tx>)
      modifies this`txs
      ensures Fits(data.amount) ==> txs == old(txs)[id := data] && r == Ok(data)
      ensures !Fits(data.amount) ==> txs == old(txs) && r == Err(Overflow)
    {
      if !Fits(data.amount) {
        return Err(Overflow);
      }
      txs := txs[id := data];
      r := Ok(data);
    }

    method UpdateTransactionStatus(id: nat, status: TxStatus) returns (r: Result<Tx>)
      requires id in txs
      modifies this`txs
      ensures txs == old(txs)[id := old(txs)[id].(status := status)] && r == Ok(txs[id])
    {
      txs := txs[id := txs[id].(status := status)];
      r := Ok(txs[id]);
    }

    method CreateLedgerEntry(entry: Entry) returns (r: Result<Entry>)
      modifies this`ledger
      ensures Fits(entry.amount) && Fits(entry.balanceAfter) ==> ledger == old(ledger) + [entry] && r == Ok(entry)
      ensures !(Fits(entry.amount) && Fits(entry.balanceAfter)) ==> ledger == old(ledger) && r == Err(Overflow)
    {
      if !Fits(entry.amount) || !Fits(entry.balanceAfter) {
        return Err(Overflow);
      }
      ledger := ledger + [entry];
      r := Ok(entry);
    }

    // Writes the balance column and no other.
    method UpdateWalletBalance(w: nat, balance: int)
      requires w in wallets
      modifies this`wallets
      ensures wallets == old(wallets)[w := old(wallets)[w].(balance := balance)]
    {
      wallets := wallets[w := wallets[w].(balance := balance)];
    }

    // Writes the status column and no other.
    method UpdateWalletStatus(w: nat, status: WalletStatus) returns (row: Wallet)
      requires w in wallets
      modifies this`wallets
      ensures wallets == old(wallets)[w := old(wallets)[w].(status := status)] && row == wallets[w]
    {
      wallets := wallets[w := wallets[w].(status := status)];
      row := wallets[w];
    }

    method CreatePayment(id: nat, data: Payment) returns (r: Result<Payment>)
      modifies this`payments
      ensures data.key in Keys(old(Contents())) ==> payments == old(payments) && r == Err(DuplicateKey)
      ensures data.key !in Keys(old(Contents())) ==> payments == old(payments)[id := data] && r == Ok(data)
    {
      if exists p | p in payments :: payments[p].key == data.key {
        return Err(DuplicateKey);
      }
      payments := payments[id := data];
      r := Ok(data);
    }

    method UpdatePaymentStatus(p: nat, status: PaymentStatus) returns (r: Result<Payment>)
      modifies this`payments
      ensures p in old(payments) ==>
                payments == old(payments)[p := old(payments)[p].(status := status)] && r == Ok(payments[p])
      ensures p !in old(payments) ==> payments == old(payments) && r == Err(PaymentNotFound)
    {
      if p !in payments {
        return Err(PaymentNotFound);
      }
      payments := payments[p := payments[p].(status := status)];
      r := Ok(payments[p]);
    }

    method RollBackTo(saved: Db)
      modifies this`wallets, this`ledger, this`txs, this`payments
      ensures Contents() == saved
    {
      wallets, ledger, txs, payments := saved.wallets, saved.ledger, saved.txs, saved.payments;
    }

    // ----- ledger service

    method PostTransaction(txId: nat, w: nat, kind: Kind, amount: real, currentBalance: int) returns (r: Result<Entry>)
      requires w in wallets
      modifies this`wallets, this`ledger
      ensures r.Ok? <==> Fits(Cents(amount)) && Fits(After(currentBalance, kind, amount))
      ensures r.Ok? ==>
                && r.value == Entry(txId, w, kind, Cents(amount), After(currentBalance, kind, amount))
                && ledger == old(ledger) + [r.value]
                && wallets == old(wallets)[w := old(wallets)[w].(balance := r.value.balanceAfter)]
      ensures r.Err? ==> r.error == Overflow && ledger == old(ledger) && wallets == old(wallets)
    {
      var balanceAfter := After(currentBalance, kind, amount);
      r := CreateLedgerEntry(Entry(txId, w, kind, Cents(amount), balanceAfter));
      if r.Ok? {
        UpdateWalletBalance(w, balanceAfter);
      }
    }

    // ----- transaction service

    method Deposit(id: nat, to: nat, amount: real) returns (r: Result<Tx>)
      modifies this`wallets, this`ledger, this`txs, this`payments
      ensures Settled(old(Contents()), Contents(), id, Op.Deposit(to, amount), r)
    {
      hide Cents, After, Fits;
      var saved := Contents();
      var refused := Constraints(wallets, to, amount);
      if refused.Some? {
        return Err(refused.value);
      }
      var wallet := wallets[to];
      r := CreateTransaction(id, Tx(DepositTx, Pending, Cents(amount), None, Some(to)));
      if r.Err? {
        return;
      }
      var posted := PostTransaction(id, to, Credit, amount, wallet.balance);
      if posted.Err? {
        RollBackTo(saved);
        return Err(posted.error);
      }
      r := UpdateTransactionStatus(id, TxStatus.Success);
      assert txs == saved.txs[id := TxOf(Op.Deposit(to, amount))];
    }

    method Withdraw(id: nat, from: nat, amount: real) returns (r: Result<Tx>)
      modifies this`wallets, this`ledger, this`txs, this`payments
      ensures Settled(old(Contents()), Contents(), id, Op.Withdraw(from, amount), r)
    {
      hide Cents, After, Fits, Funds.Refused;
      var saved := Contents();
      var refused := Constraints(wallets, from, amount);
      if refused.Some? {
        return Err(refused.value);
      }
      var wallet := wallets[from];
      if Funds.Refused(wallet.balance, amount) {
        return Err(InsufficientFunds);
      }
      r := CreateTransaction(id, Tx(WithdrawTx, Pending, Cents(amount), Some(from), None));
      if r.Err? {
        return;
      }
      var posted := PostTransaction(id, from, Debit, amount, wallet.balance);
      if posted.Err? {
        RollBackTo(saved);
        return Err(posted.error);
      }
      r := UpdateTransactionStatus(id, TxStatus.Success);
      assert txs == saved.txs[id := TxOf(Op.Withdraw(from, amount))];
    }

    method Transfer(id: nat, from: nat, to: nat, amount: real) returns (r: Result<Tx>)
      modifies this`wallets, this`ledger, this`txs, this`payments
      ensures Settled(old(Contents()), Contents(), id, Op.Transfer(from, to, amount), r)
    {
      hide Cents, After, Fits, Funds.Refused;
      if from == to {
        return Err(SameWallet);
      }
      var saved := Contents();
      if from !in wallets || to !in wallets {
        return Err(WalletNotFound);
      }
      var senderWallet, receiverWallet := wallets[from], wallets[to];
      var refused := Constraints(wallets, from, amount);
      if refused.None? {
        refused := Constraints(wallets, to, amount);
      }
      if refused.Some? {
        return Err(refused.value);
      }
      if Funds.Refused(senderWallet.balance, amount) {
        return Err(InsufficientFunds);
      }
      r := CreateTransaction(id, Tx(TransferTx, Pending, Cents(amount), Some(from), Some(to)));
      if r.Err? {
        return;
      }
      // both postings use the balances read above
      var posted := PostTransaction(id, from, Debit, amount, senderWallet.balance);
      if posted.Ok? {
        posted := PostTransaction(id, to, Credit, amount, receiverWallet.balance);
      }
      if posted.Err? {
        RollBackTo(saved);
        return Err(posted.error);
      }
      r := UpdateTransactionStatus(id, TxStatus.Success);
      assert txs == saved.txs[id := TxOf(Op.Transfer(from, to, amount))];
    }

    // ----- wallet service

    method CreateWallet(id: nat, owner: nat) returns (r: Result<Wallet>)
      modifies this`wallets
      ensures Changed(old(Contents()), Contents(), id, Op.Create(owner), r)
    {
      if exists w | w in wallets :: wallets[w].owner == owner && wallets[w].status != Closed {
        return Err(OwnerHasWallet);
      }
      // the insert meets the unique column
      if id in wallets || exists w | w in wallets :: wallets[w].owner == owner {
        return Err(DuplicateOwner);
      }
      wallets := wallets[id := Wallet(owner, 0, Active)];
      r := Ok(wallets[id]);
    }

    method FreezeWallet(id: nat, w: nat) returns (r: Result<Wallet>)
      modifies this`wallets
      ensures Changed(old(Contents()), Contents(), id, Op.Freeze(w), r)
    {
      if w !in wallets {
        return Err(WalletNotFound);
      }
      if wallets[w].status == Closed {
        return Err(WalletClosed);
      }
      var row := UpdateWalletStatus(w, Frozen);
      r := Ok(row);
    }

    method UnfreezeWallet(id: nat, w: nat) returns (r: Result<Wallet>)
      modifies this`wallets
      ensures Changed(old(Contents()), Contents(), id, Op.Unfreeze(w), r)
    {
      if w !in wallets {
        return Err(WalletNotFound);
      }
      if wallets[w].status == Closed {
        return Err(WalletClosed);
      }
      var row := UpdateWalletStatus(w, Active);
      r := Ok(row);
    }

    method CloseWallet(id: nat, w: nat) returns (r: Result<Wallet>)
      modifies this`wallets
      ensures Changed(old(Contents()), Contents(), id, Op.Close(w), r)
    {
      if w !in wallets {
        return Err(WalletNotFound);
      }
      if wallets[w].status == Closed {
        return Err(WalletClosed);
      }
      var row := UpdateWalletStatus(w, Closed);
      r := Ok(row);
    }

    // ----- payment service

    // The database transaction of a payment.
    method PaymentTransaction(id: nat, key: string, to: nat, amount: real) returns (r: Result<Tx>)
      requires key != ""
      modifies this`wallets, this`ledger, this`txs, this`payments
      ensures Settled(old(Contents()), Contents(), id, Op.Pay(key, to, amount), r)
    {
      hide Cents, After, Fits;
      var saved := Contents();
      var refused := NotUsable(wallets, to);
      if refused.Some? {
        return Err(refused.value);
      }
      if amount <= 0.0 {
        return Err(InvalidAmount);
      }
      var wallet := wallets[to];
      r := CreateTransaction(id, Tx(DepositTx, TxStatus.Success, Cents(amount), None, Some(to)));
      if r.Err? {
        return;
      }
      var posted := PostTransaction(id, to, Credit, amount, wallet.balance);
      if posted.Err? {
        RollBackTo(saved);
        return Err(posted.error);
      }
      var paid := CreatePayment(id, Payment(id, Cents(amount), key, Initiated));
      if paid.Err? {
        RollBackTo(saved);
        return Err(paid.error);
      }
    }

    function View(): Scene
      reads this, events
    {
      Scene(Contents(), cache, keyLocks, Payments(events.paymentQueue))
    }

    /** processPayment, run alone at time `now`: the id of the payment, cached or fresh. */
    method ProcessPayment(id: nat, key: string, to: nat, amount: real, now: nat) returns (r: Result<nat>)
      modifies this, events`paymentQueue
      ensures PaymentCalled(old(View()), View(), id, Op.Pay(key, to, amount), now, r)
      ensures events.paymentQueue == old(events.paymentQueue)
           || events.paymentQueue == old(events.paymentQueue) + [Job("PAYMENT_SUCCESS", id, 3)]
    {
      hide Atomic;
      if key == "" {
        return Err(MissingKey);
      }
      if Alive(cache, key, now) {
        return Ok(cache[key].value);
      }
      if Alive(keyLocks, key, now) {
        return Err(KeyBusy);
      }
      keyLocks := keyLocks[key := Cell(id, now + LOCK_MS)];
      var result := PaymentTransaction(id, key, to, amount);
      if result.Ok? {
        cache := cache[key := Cell(id, now + CACHE_MS)];
        events.PublishPaymentEvent("PAYMENT_SUCCESS", id);
        r := Ok(id);
      } else {
        r := Err(result.error);
      }
      // finally
      keyLocks := keyLocks - {key};
      assert keyLocks == old(keyLocks) - {key};
    }

    method VerifyPayment(p: nat, success: bool) returns (r: Result<Payment>)
      modifies this`payments, events`webhookQueue
      ensures match SetPayment(old(Contents()), p, success)
              case Ok(db) => Contents() == db && p in db.payments && r == Ok(db.payments[p])
              case Err(e) => Contents() == old(Contents()) && r == Err(e)
      ensures events.webhookQueue == old(events.webhookQueue)
                + (if r.Ok? && success then [Job("PAYMENT_VERIFIED", p, 5)] else [])
    {
      if p !in payments {
        return Err(PaymentNotFound);
      }
      var status := if success then PaymentStatus.Success else PaymentStatus.Failed;
      r := UpdatePaymentStatus(p, status);
      if status == PaymentStatus.Success {
        events.PublishWebhookEvent("PAYMENT_VERIFIED", p);
      }
    }

    /** The payment worker: an error is rethrown, so that the job is delivered again. */
    method HandleJob(job: Job) returns (r: Result<()>)
      modifies this`payments
      ensures job.name != "PAYMENT_SUCCESS" ==> Contents() == old(Contents()) && r == Ok(())
      ensures job.name == "PAYMENT_SUCCESS" ==>
                match SetPayment(old(Contents()), job.payment, true)
                case Ok(db) => Contents() == db && r == Ok(())
                case Err(e) => Contents() == old(Contents()) && r == Err(e)
    {
      if job.name == "PAYMENT_SUCCESS" {
        var updated := UpdatePaymentStatus(job.payment, PaymentStatus.Success);
        if updated.Err? {
          return Err(updated.error);
        }
      }
      r := Ok(());
    }

    /** calculateRunningBalance over the wallet's history in any order. */
    method RunningBalance(w: nat, history: seq<Entry>) returns (balance: int)
      requires multiset(history) == multiset(Of(ledger, w))
      ensures balance == Replay(ledger, w)
    {
      balance := CalculateRunningBalance(ledger, w, history);
    }
  }
}

/** When each operation succeeds, what it then writes, and why it fails otherwise: in terms
    of the rows and the amount alone, with every limit written as a number. */
module Outcomes {
  import opened Money
  import opened Ledger
  import opened Tables
  import Funds

  // DECIMAL(18,2): sixteen digits before the point and two behind it.
  predicate InColumn(cents: int) {
    -1_000_000_000_000_000_000 < cents < 1_000_000_000_000_000_000
  }

  predicate Usable(db: Db, w: nat) {
    w in db.wallets && db.wallets[w].status == Active
  }

  // The error for a wallet that cannot be posted to.
  function Unusable(db: Db, w: nat): Error {
    if w in db.wallets then NotActive(db.wallets[w].status) else WalletNotFound
  }

  function WithBalance(wallets: map<nat, Wallet>, w: nat, balance: int): map<nat, Wallet>
    requires w in wallets
  {
    wallets[w := Wallet(wallets[w].owner, balance, wallets[w].status)]
  }

  lemma CoveredFits(balance: int, amount: real)
    requires 0.0 < amount && amount * 100.0 <= balance as real
    ensures 0 <= Cents(amount) <= balance
    ensures 0 <= After(balance, Debit, amount) <= balance
  {
    NearestIsNearest(amount * 100.0, Cents(amount));
    NearestIsNearest(balance as real - amount * 100.0, After(balance, Debit, amount));
  }

  // ----- deposits and payments

  /** A deposit succeeds if and only if the amount is positive, the wallet is ACTIVE and both
      columns can hold the result; nothing else about the wallet matters. */
  lemma DepositOutcome(db: Db, id: nat, to: nat, amount: real)
    ensures var r := Atomic(db, id, Deposit(to, amount));
      if amount <= 0.0 then r == Err(InvalidAmount)
      else if !Usable(db, to) then r == Err(Unusable(db, to))
      else
        var balance := After(db.wallets[to].balance, Credit, amount);
        if !InColumn(Cents(amount)) || !InColumn(balance) then r == Err(Overflow)
        else r == Ok(Db(
                   WithBalance(db.wallets, to, balance),
                   db.ledger + [Entry(id, to, Credit, Cents(amount), balance)],
                   db.txs[id := Tx(DepositTx, TxStatus.Success, Cents(amount), None, Some(to))],
                   db.payments))
  {
    hide Cents, After;
  }

  /** A payment succeeds if and only if its key is not empty and not used, the wallet is
      ACTIVE, the amount is positive and the columns can hold the result. */
  lemma PaymentOutcome(db: Db, id: nat, key: string, to: nat, amount: real)
    ensures var r := Atomic(db, id, Pay(key, to, amount));
      if key == "" then r == Err(MissingKey)
      else if !Usable(db, to) then r == Err(Unusable(db, to))
      else if amount <= 0.0 then r == Err(InvalidAmount)
      else
        var balance := After(db.wallets[to].balance, Credit, amount);
        if !InColumn(Cents(amount)) || !InColumn(balance) then r == Err(Overflow)
        else if exists p | p in db.payments :: db.payments[p].key == key then r == Err(DuplicateKey)
        else r == Ok(Db(
                   WithBalance(db.wallets, to, balance),
                   db.ledger + [Entry(id, to, Credit, Cents(amount), balance)],
                   db.txs[id := Tx(DepositTx, TxStatus.Success, Cents(amount), None, Some(to))],
                   db.payments[id := Payment(id, Cents(amount), key, Initiated)]))
  {
    hide Cents, After;
  }

  // ----- withdrawals

  // What a withdrawal or a transfer takes from its sender.
  ghost predicate Debits(db: Db, id: nat, from: nat, amount: real, kind: TxType, to: Option<nat>, after: Db)
    requires from in db.wallets
  {
    var balance := After(db.wallets[from].balance, Debit, amount);
    after == Db(
      WithBalance(db.wallets, from, balance),
      db.ledger + [Entry(id, from, Debit, Cents(amount), balance)],
      db.txs[id := Tx(kind, TxStatus.Success, Cents(amount), Some(from), to)],
      db.payments)
  }

  /** Every covered withdrawal from an ACTIVE wallet succeeds, the whole balance included,
      whatever the size of the balance and the number of fraction digits. */
  lemma CoveredWithdrawal(db: Db, id: nat, from: nat, amount: real)
    requires Usable(db, from) && InColumn(db.wallets[from].balance)
    requires 0.0 < amount && amount * 100.0 <= db.wallets[from].balance as real
    ensures Atomic(db, id, Withdraw(from, amount)).Ok?
    ensures Debits(db, id, from, amount, WithdrawTx, None, Atomic(db, id, Withdraw(from, amount)).value)
  {
    hide Cents, After, Funds.Refused;
    CoveredFits(db.wallets[from].balance, amount);
    Funds.CoveredIsNeverRefused(db.wallets[from].balance, amount);
  }

  /** For printed amounts and balances up to 2^46 units a withdrawal succeeds if and only if
      the amount is positive, the wallet is ACTIVE and its balance covers the amount. */
  lemma WithdrawOutcome(db: Db, id: nat, from: nat, amount: real)
    requires from in db.wallets ==> 0 <= db.wallets[from].balance <= 7_036_874_417_766_400
    requires Funds.Printed(amount)
    ensures var r := Atomic(db, id, Withdraw(from, amount));
      if amount <= 0.0 then r == Err(InvalidAmount)
      else if !Usable(db, from) then r == Err(Unusable(db, from))
      else if (db.wallets[from].balance as real) < amount * 100.0 then r == Err(InsufficientFunds)
      else r.Ok? && Debits(db, id, from, amount, WithdrawTx, None, r.value)
  {
    hide Cents, After, Funds.Refused, Debits, Funds.Printed;
    if 0.0 < amount && Usable(db, from) {
      Funds.ExactForPrinted(db.wallets[from].balance, amount);
      if amount * 100.0 <= db.wallets[from].balance as real {
        hide Atomic;
        CoveredWithdrawal(db, id, from, amount);
      }
    }
  }

  // ----- transfers

  ghost predicate Moves(db: Db, id: nat, from: nat, to: nat, amount: real, after: Db)
    requires from in db.wallets && to in db.wallets && from != to
  {
    var sent := After(db.wallets[from].balance, Debit, amount);
    var received := After(db.wallets[to].balance, Credit, amount);
    after == Db(
      WithBalance(WithBalance(db.wallets, from, sent), to, received),
      db.ledger + [Entry(id, from, Debit, Cents(amount), sent)] + [Entry(id, to, Credit, Cents(amount), received)],
      db.txs[id := Tx(TransferTx, TxStatus.Success, Cents(amount), Some(from), Some(to))],
      db.payments)
  }

  /** Every covered transfer between two ACTIVE wallets succeeds unless the receiver's column
      overflows: the receiver's balance needs to cover nothing. */
  lemma CoveredTransfer(db: Db, id: nat, from: nat, to: nat, amount: real)
    requires from != to && Usable(db, from) && Usable(db, to) && InColumn(db.wallets[from].balance)
    requires 0.0 < amount && amount * 100.0 <= db.wallets[from].balance as real
    ensures var r := Atomic(db, id, Transfer(from, to, amount));
      if InColumn(After(db.wallets[to].balance, Credit, amount))
      then r.Ok? && Moves(db, id, from, to, amount, r.value)
      else r == Err(Overflow)
  {
    hide Cents, After, Funds.Refused;
    CoveredFits(db.wallets[from].balance, amount);
    Funds.CoveredIsNeverRefused(db.wallets[from].balance, amount);
  }

  /** For printed amounts and a sender's balance up to 2^46 units a transfer succeeds if and
      only if the wallets are two, both there and ACTIVE, the amount is positive, the sender's
      balance covers it and the receiver's column can hold it. */
  lemma TransferOutcome(db: Db, id: nat, from: nat, to: nat, amount: real)
    requires from in db.wallets ==> 0 <= db.wallets[from].balance <= 7_036_874_417_766_400
    requires Funds.Printed(amount)
    ensures var r := Atomic(db, id, Transfer(from, to, amount));
      if from == to then r == Err(SameWallet)
      else if from !in db.wallets || to !in db.wallets then r == Err(WalletNotFound)
      else if amount <= 0.0 then r == Err(InvalidAmount)
      else if !Usable(db, from) then r == Err(Unusable(db, from))
      else if !Usable(db, to) then r == Err(Unusable(db, to))
      else if (db.wallets[from].balance as real) < amount * 100.0 then r == Err(InsufficientFunds)
      else if !InColumn(After(db.wallets[to].balance, Credit, amount)) then r == Err(Overflow)
      else r.Ok? && Moves(db, id, from, to, amount, r.value)
  {
    hide Cents, After, Funds.Refused, Moves, Funds.Printed;
    if from != to && 0.0 < amount && Usable(db, from) && Usable(db, to) {
      Funds.ExactForPrinted(db.wallets[from].balance, amount);
      if amount * 100.0 <= db.wallets[from].balance as real {
        hide Atomic;
        CoveredTransfer(db, id, from, to, amount);
      }
    }
  }

  // ----- whole cents: the bank on integers

  // The amount of n cents.
  function Units(n: int): real {
    n as real / 100.0
  }

  lemma UnitsAreCents(n: int)
    ensures WholeCents(Units(n)) && Cents(Units(n)) == n && Funds.Printed(Units(n))
    ensures forall balance: int, kind :: After(balance, kind, Units(n)) == balance + (if kind == Credit then n else -n)
  {
    WholeCentsAreExact(0, Units(n));
    forall balance: int, kind: Kind
      ensures After(balance, kind, Units(n)) == balance + (if kind == Credit then n else -n)
    {
      WholeCentsAreExact(balance, Units(n));
    }
  }

  function Balance(r: Result<Db>, w: nat): int {
    if r.Ok? && w in r.value.wallets then r.value.wallets[w].balance else 0
  }

  /** On whole cents the engine of doubles and decimals is a bank on integers: a withdrawal of
      n cents succeeds exactly for 0 < n <= balance and leaves the difference, and a transfer
      moves n cents from the one balance to the other. */
  lemma WholeCentDebits(db: Db, id: nat, from: nat, to: nat, n: int)
    requires Usable(db, from) && Usable(db, to) && from != to
    requires 0 <= db.wallets[from].balance <= 7_036_874_417_766_400
    requires 0 <= db.wallets[to].balance < 900_000_000_000_000_000
    ensures var r, b := Atomic(db, id, Withdraw(from, Units(n))), db.wallets[from].balance;
      && (r.Ok? <==> 0 < n <= b)
      && (r.Ok? ==> Balance(r, from) == b - n && Balance(r, to) == db.wallets[to].balance)
    ensures var r, b := Atomic(db, id, Transfer(from, to, Units(n))), db.wallets[from].balance;
      && (r.Ok? <==> 0 < n <= b)
      && (r.Ok? ==> Balance(r, from) == b - n && Balance(r, to) == db.wallets[to].balance + n)
  {
    hide Atomic, Cents, After, Funds.Printed;
    UnitsAreCents(n);
    WithdrawOutcome(db, id, from, Units(n));
    TransferOutcome(db, id, from, to, Units(n));
  }

  /** A deposit or a payment under a new key of n cents succeeds exactly for 0 < n, as far as
      the column reaches, and adds n to the balance. */
  lemma WholeCentCredits(db: Db, id: nat, key: string, to: nat, n: int)
    requires Usable(db, to) && InColumn(db.wallets[to].balance)
    requires key != "" && forall p | p in db.payments :: db.payments[p].key != key
    ensures var r, b := Atomic(db, id, Deposit(to, Units(n))), db.wallets[to].balance;
      (r.Ok? <==> 0 < n < 1_000_000_000_000_000_000 && b + n < 1_000_000_000_000_000_000)
      && (r.Ok? ==> Balance(r, to) == b + n)
    ensures var r, b := Atomic(db, id, Pay(key, to, Units(n))), db.wallets[to].balance;
      (r.Ok? <==> 0 < n < 1_000_000_000_000_000_000 && b + n < 1_000_000_000_000_000_000)
      && (r.Ok? ==> Balance(r, to) == b + n)
  {
    hide Atomic, Cents, After, Funds.Printed;
    UnitsAreCents(n);
    DepositOutcome(db, id, to, Units(n));
    PaymentOutcome(db, id, key, to, Units(n));
  }

  // ----- wallets and payment status

  /** Freeze, unfreeze and close succeed exactly on a wallet that is there and not CLOSED, and
      then set that one status and nothing else. */
  lemma StatusOutcome(db: Db, id: nat, w: nat)
    ensures var frozen, active, closed :=
        Lifecycle(db, id, Freeze(w)), Lifecycle(db, id, Unfreeze(w)), Lifecycle(db, id, Close(w));
      if w !in db.wallets then frozen == active == closed == Err(WalletNotFound)
      else if db.wallets[w].status == Closed then frozen == active == closed == Err(WalletClosed)
      else
        var row := db.wallets[w];
        && frozen == Ok(db.(wallets := db.wallets[w := Wallet(row.owner, row.balance, Frozen)]))
        && active == Ok(db.(wallets := db.wallets[w := Wallet(row.owner, row.balance, Active)]))
        && closed == Ok(db.(wallets := db.wallets[w := Wallet(row.owner, row.balance, Closed)]))
  {
  }

  /** An owner without a wallet gets one, ACTIVE and empty; an owner with an open wallet meets
      the service's own check, an owner with closed ones only the unique column. */
  lemma CreateOutcome(db: Db, id: nat, owner: nat)
    requires id !in db.wallets
    ensures var r, mine := Lifecycle(db, id, Create(owner)), set w | w in db.wallets && db.wallets[w].owner == owner;
      if mine == {} then r == Ok(db.(wallets := db.wallets[id := Wallet(owner, 0, Active)]))
      else if forall w | w in mine :: db.wallets[w].status == Closed then r == Err(DuplicateOwner)
      else r == Err(OwnerHasWallet)
  {
    var mine := set w | w in db.wallets && db.wallets[w].owner == owner;
    assert forall w | w in db.wallets && db.wallets[w].owner == owner :: w in mine;
  }

  /** A verdict on a payment sets its status to SUCCESS or FAILED and nothing else. */
  lemma StatusOfPayment(db: Db, p: nat, success: bool)
    ensures var r := SetPayment(db, p, success);
      if p !in db.payments then r == Err(PaymentNotFound)
      else
        var row := db.payments[p];
        r == Ok(db.(payments := db.payments[p := Payment(row.txId, row.amount, row.key,
                if success then PaymentStatus.Success else PaymentStatus.Failed)]))
  {
  }
}

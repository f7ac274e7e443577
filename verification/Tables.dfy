/** The database tables, and each service operation as one indivisible change of them:
    the simple form that the interleaved engine and the service methods refine. */
module Tables {
  import opened Money
  import opened Ledger
  import Funds

  datatype Option<+T> = None | Some(value: T)

  datatype Result<+T> = Ok(value: T) | Err(error: Error) {
    predicate IsFailure() { Err? }
    function PropagateFailure<U>(): Result<U> requires Err? { Err(error) }
    function Extract(): T requires Ok? { value }
  }

  datatype Error =
    | SameWallet
    | WalletNotFound
    | InvalidAmount
    | NotActive(status: WalletStatus)
    | InsufficientFunds
    | Overflow
    | MissingKey
    | KeyBusy
    | DuplicateKey
    | OwnerHasWallet
    | DuplicateOwner
    | WalletClosed
    | PaymentNotFound
    | DatabaseFailed
    | RedisFailed

  datatype WalletStatus = Active | Frozen | Closed
  datatype TxType = DepositTx | WithdrawTx | TransferTx
  datatype TxStatus = Pending | Success | Failed | Reversed
  datatype PaymentStatus = Initiated | Processing | Success | Failed | Reversed

  datatype Wallet = Wallet(owner: nat, balance: int, status: WalletStatus)
  datatype Tx = Tx(kind: TxType, status: TxStatus, amount: int, sender: Option<nat>, receiver: Option<nat>)
  datatype Payment = Payment(txId: nat, amount: int, key: string, status: PaymentStatus)

  datatype Db = Db(
    wallets: map<nat, Wallet>,
    ledger: seq<Entry>,
    txs: map<nat, Tx>,
    payments: map<nat, Payment>)

  // What a caller asks for.  The rows that a request creates are identified by the
  // request: its random ids and references are fresh values.
  datatype Op =
    | Deposit(to: nat, amount: real)
    | Withdraw(from: nat, amount: real)
    | Transfer(from: nat, to: nat, amount: real)
    | Pay(key: string, to: nat, amount: real)
    | Create(owner: nat)
    | Freeze(w: nat)
    | Unfreeze(w: nat)
    | Close(w: nat)
  {
    predicate MovesMoney() {
      Deposit? || Withdraw? || Transfer? || Pay?
    }

    // The wallet a debit is taken from and the wallet a credit goes to.
    function Debited(): Option<nat> {
      if Withdraw? || Transfer? then Some(from) else None
    }

    function Credited(): Option<nat> {
      if Deposit? || Transfer? || Pay? then Some(to) else None
    }

    predicate Touches(w: nat) {
      Debited() == Some(w) || Credited() == Some(w)
    }
  }

  function Keys(db: Db): set<string> {
    set p | p in db.payments :: db.payments[p].key
  }

  // findUserTransactions: the rows that a wallet sent or received.
  function FindUserTransactions(db: Db, w: nat): set<nat> {
    set t | t in db.txs && (db.txs[t].sender == Some(w) || db.txs[t].receiver == Some(w))
  }

  // ----- the checks of the services

  function NotUsable(wallets: map<nat, Wallet>, w: nat): Option<Error> {
    if w !in wallets then Some(WalletNotFound)
    else if wallets[w].status != Active then Some(NotActive(wallets[w].status))
    else None
  }

  // _validateConstraints: the amount first, then the wallet.
  function Constraints(wallets: map<nat, Wallet>, w: nat, amount: real): Option<Error> {
    if amount <= 0.0 then Some(InvalidAmount) else NotUsable(wallets, w)
  }

  // The checks before a database transaction is opened.
  function RefusedAtOnce(op: Op): Option<Error> {
    if op.Transfer? && op.from == op.to then Some(SameWallet)
    else if op.Pay? && op.key == "" then Some(MissingKey)
    else None
  }

  // The checks on the locked rows, each service's in its own order.
  function Refusal(op: Op, wallets: map<nat, Wallet>): Option<Error>
    requires op.MovesMoney()
  {
    match op
    case Deposit(to, amount) => Constraints(wallets, to, amount)
    case Withdraw(from, amount) =>
      var c := Constraints(wallets, from, amount);
      if c.Some? then c
      else if Funds.Refused(wallets[from].balance, amount) then Some(InsufficientFunds)
      else None
    case Transfer(from, to, amount) =>
      if from !in wallets || to !in wallets then Some(WalletNotFound)
      else
        var c, d := Constraints(wallets, from, amount), Constraints(wallets, to, amount);
        if c.Some? then c
        else if d.Some? then d
        else if Funds.Refused(wallets[from].balance, amount) then Some(InsufficientFunds)
        else None
    case Pay(_, to, amount) =>
      var c := NotUsable(wallets, to);
      if c.Some? then c
      else if amount <= 0.0 then Some(InvalidAmount)
      else None
  }

  // ----- the writes

  // One posting: the entry, and the balance it leaves.
  function Post(db: Db, id: nat, w: nat, kind: Kind, amount: real): Result<Db>
    requires w in db.wallets
  {
    var row := db.wallets[w];
    var balanceAfter := After(row.balance, kind, amount);
    if !Fits(Cents(amount)) || !Fits(balanceAfter) then Err(Overflow)
    else Ok(db.(
            ledger := db.ledger + [Entry(id, w, kind, Cents(amount), balanceAfter)],
            wallets := db.wallets[w := row.(balance := balanceAfter)]))
  }

  function AddTx(db: Db, id: nat, tx: Tx): Result<Db> {
    if !Fits(tx.amount) then Err(Overflow) else Ok(db.(txs := db.txs[id := tx]))
  }

  function AddPayment(db: Db, id: nat, payment: Payment): Result<Db> {
    if payment.key in Keys(db) then Err(DuplicateKey)
    else Ok(db.(payments := db.payments[id := payment]))
  }

  // The transaction row as it is left behind.
  function TxOf(op: Op): Tx
    requires op.MovesMoney()
  {
    Tx(if op.Withdraw? then WithdrawTx else if op.Transfer? then TransferTx else DepositTx,
       TxStatus.Success, Cents(op.amount), op.Debited(), op.Credited())
  }

  /** A money operation run alone. */
  function Atomic(db: Db, id: nat, op: Op): Result<Db>
    requires op.MovesMoney()
  {
    if RefusedAtOnce(op).Some? then Err(RefusedAtOnce(op).value)
    else if Refusal(op, db.wallets).Some? then Err(Refusal(op, db.wallets).value)
    else
      var d0 :- AddTx(db, id, TxOf(op));
      match op
      case Deposit(to, amount) => Post(d0, id, to, Credit, amount)
      case Withdraw(from, amount) => Post(d0, id, from, Debit, amount)
      case Transfer(from, to, amount) =>
        var d1 :- Post(d0, id, from, Debit, amount);
        Post(d1, id, to, Credit, amount)
      case Pay(key, to, amount) =>
        var d1 :- Post(d0, id, to, Credit, amount);
        AddPayment(d1, id, Payment(id, Cents(amount), key, Initiated))
  }

  // ----- wallet lifecycle

  predicate HasWallet(db: Db, owner: nat) {
    exists w | w in db.wallets :: db.wallets[w].owner == owner
  }

  // What the unlocked read of a lifecycle operation is checked for.
  function ReadRefusal(op: Op, db: Db): Option<Error>
    requires !op.MovesMoney()
  {
    if op.Create? then
      if exists w | w in db.wallets :: db.wallets[w].owner == op.owner && db.wallets[w].status != Closed
      then Some(OwnerHasWallet) else None
    else if op.w !in db.wallets then Some(WalletNotFound)
    else if db.wallets[op.w].status == Closed then Some(WalletClosed)
    else None
  }

  function NewStatus(op: Op): WalletStatus {
    if op.Freeze? then Frozen else if op.Unfreeze? then Active else Closed
  }

  // The write half, which does not look at the status again.
  function LifecycleWrite(db: Db, id: nat, op: Op): Result<Db>
    requires !op.MovesMoney()
  {
    if op.Create? then
      // `userId` is a unique column
      if HasWallet(db, op.owner) || id in db.wallets then Err(DuplicateOwner)
      else Ok(db.(wallets := db.wallets[id := Wallet(op.owner, 0, Active)]))
    else if op.w !in db.wallets then Err(WalletNotFound)
    else Ok(db.(wallets := db.wallets[op.w := db.wallets[op.w].(status := NewStatus(op))]))
  }

  // Both halves, when nobody comes between them.
  function Lifecycle(db: Db, id: nat, op: Op): Result<Db>
    requires !op.MovesMoney()
  {
    var refused := ReadRefusal(op, db);
    if refused.Some? then Err(refused.value) else LifecycleWrite(db, id, op)
  }

  // ----- the commit log

  datatype Commit =
    | Request(id: nat, op: Op)
    | PaymentSet(payment: nat, success: bool)

  function SetPayment(db: Db, p: nat, success: bool): Result<Db> {
    if p !in db.payments then Err(PaymentNotFound)
    else
      var status := if success then PaymentStatus.Success else PaymentStatus.Failed;
      Ok(db.(payments := db.payments[p := db.payments[p].(status := status)]))
  }

  function Do(db: Db, c: Commit): Result<Db> {
    match c
    case Request(id, op) => if op.MovesMoney() then Atomic(db, id, op) else LifecycleWrite(db, id, op)
    case PaymentSet(p, success) => SetPayment(db, p, success)
  }

  /** The committed changes, one at a time in commit order: money operations whole, status
      writes and new wallets as the writes they are. */
  function RunLog(db: Db, log: seq<Commit>): Result<Db> {
    if log == [] then Ok(db)
    else
      var before :- RunLog(db, log[..|log| - 1]);
      Do(before, log[|log| - 1])
  }

  lemma RunLogAppend(db: Db, log: seq<Commit>, c: Commit)
    ensures RunLog(db, log).Ok? ==> RunLog(db, log + [c]) == Do(RunLog(db, log).value, c)
  {
    assert (log + [c])[..|log|] == log;
  }
}

/** A money operation as the steps its service method takes inside a database
    transaction: lock, check, then private writes computed from the locked snapshot. */
module Program {
  import opened Money
  import opened Ledger
  import opened Tables

  datatype Instr =
    | LockRow(w: nat)                       // SELECT … FOR UPDATE
    | Check
    | InsertTx
    | AppendEntry(w: nat, kind: Kind)       // postTransaction: the entry …
    | StoreBalance(w: nat, kind: Kind)      // … and the balance column
    | MarkSuccess
    | InsertPayment

  // What a transaction has written and not yet committed.
  datatype Writes = Writes(
    balances: map<nat, int>,
    entries: seq<Entry>,
    tx: Option<Tx>,
    payment: Option<Payment>)

  const NOTHING: Writes := Writes(map[], [], None, None)

  function Code(op: Op): seq<Instr>
    requires op.MovesMoney()
  {
    match op
    case Deposit(to, _) =>
      [LockRow(to), Check, InsertTx, AppendEntry(to, Credit), StoreBalance(to, Credit), MarkSuccess]
    case Withdraw(from, _) =>
      [LockRow(from), Check, InsertTx, AppendEntry(from, Debit), StoreBalance(from, Debit), MarkSuccess]
    case Transfer(from, to, _) =>
      // the rows are locked in the order of their ids
      [LockRow(if from < to then from else to), LockRow(if from < to then to else from), Check, InsertTx,
       AppendEntry(from, Debit), StoreBalance(from, Debit),
       AppendEntry(to, Credit), StoreBalance(to, Credit), MarkSuccess]
    case Pay(_, to, _) =>
      [LockRow(to), Check, InsertTx, AppendEntry(to, Credit), StoreBalance(to, Credit), InsertPayment]
  }

  // The number of leading lock steps.
  function Locks(op: Op): nat {
    if op.Transfer? then 2 else 1
  }

  // One step on the private writes.  `rows` are the locked rows as they were read,
  // `keys` the idempotency keys of the committed payments.
  function Act(id: nat, op: Op, rows: map<nat, Wallet>, keys: set<string>, instr: Instr, done: Writes): Result<Writes>
    requires op.MovesMoney()
  {
    match instr
    case LockRow(_) => Ok(done)
    case Check =>
      if Refusal(op, rows).Some? then Err(Refusal(op, rows).value) else Ok(done)
    case InsertTx =>
      if !Fits(Cents(op.amount)) then Err(Overflow)
      else Ok(done.(tx := Some(if op.Pay? then TxOf(op) else TxOf(op).(status := TxStatus.Pending))))
    case AppendEntry(w, kind) =>
      if w !in rows then Err(WalletNotFound)
      else
        var balanceAfter := After(rows[w].balance, kind, op.amount);
        if !Fits(Cents(op.amount)) || !Fits(balanceAfter) then Err(Overflow)
        else Ok(done.(entries := done.entries + [Entry(id, w, kind, Cents(op.amount), balanceAfter)]))
    case StoreBalance(w, kind) =>
      if w !in rows then Err(WalletNotFound)
      else Ok(done.(balances := done.balances[w := After(rows[w].balance, kind, op.amount)]))
    case MarkSuccess =>
      if done.tx.None? then Err(DatabaseFailed)
      else Ok(done.(tx := Some(done.tx.value.(status := TxStatus.Success))))
    case InsertPayment =>
      if !op.Pay? || op.key in keys then Err(DuplicateKey)
      else Ok(done.(payment := Some(Payment(id, Cents(op.amount), op.key, Initiated))))
  }

  // The first n steps, run without interruption.
  function Play(id: nat, op: Op, rows: map<nat, Wallet>, keys: set<string>, n: nat): Result<Writes>
    requires op.MovesMoney() && n <= |Code(op)|
  {
    if n == 0 then Ok(NOTHING)
    else
      var done :- Play(id, op, rows, keys, n - 1);
      Act(id, op, rows, keys, Code(op)[n - 1], done)
  }

  // Commit: the balance column of each posted row, the appended entries, the new rows.
  function Install(db: Db, id: nat, writes: Writes): Db {
    Db(
      map w | w in db.wallets ::
        if w in writes.balances then db.wallets[w].(balance := writes.balances[w]) else db.wallets[w],
      db.ledger + writes.entries,
      if writes.tx.Some? then db.txs[id := writes.tx.value] else db.txs,
      if writes.payment.Some? then db.payments[id := writes.payment.value] else db.payments)
  }

  ghost predicate Agrees(played: Result<Writes>, db: Db, id: nat, atomic: Result<Db>) {
    match played
    case Ok(writes) => atomic == Ok(Install(db, id, writes))
    case Err(e) => atomic == Err(e)
  }

  lemma PlayNext(id: nat, op: Op, rows: map<nat, Wallet>, keys: set<string>, n: nat)
    requires op.MovesMoney() && n < |Code(op)|
    ensures n == 0 ==> Play(id, op, rows, keys, n) == Ok(NOTHING)
    ensures Play(id, op, rows, keys, n).Err? ==>
              Play(id, op, rows, keys, n + 1) == Play(id, op, rows, keys, n)
    ensures Play(id, op, rows, keys, n).Ok? ==>
              Play(id, op, rows, keys, n + 1) ==
              Act(id, op, rows, keys, Code(op)[n], Play(id, op, rows, keys, n).value)
  {
  }

  lemma SinglePosting(db: Db, id: nat, op: Op, w: nat, kind: Kind)
    requires op.Deposit? || op.Withdraw?
    requires w == (if op.Withdraw? then op.from else op.to)
    requires kind == if op.Withdraw? then Debit else Credit
    ensures Agrees(Play(id, op, db.wallets, Keys(db), |Code(op)|), db, id, Atomic(db, id, op))
  {
    hide Cents, After, Fits, Funds.Refused, Play;
    var rows, keys := db.wallets, Keys(db);
    PlayNext(id, op, rows, keys, 0);
    PlayNext(id, op, rows, keys, 1);
    PlayNext(id, op, rows, keys, 2);
    PlayNext(id, op, rows, keys, 3);
    PlayNext(id, op, rows, keys, 4);
    PlayNext(id, op, rows, keys, 5);
    var played := Play(id, op, rows, keys, 6);
    if played.Ok? {
      assert played.value.balances == map[w := After(rows[w].balance, kind, op.amount)];
      assert Atomic(db, id, op).value.ledger == Install(db, id, played.value).ledger;
      assert Atomic(db, id, op).value.wallets == Install(db, id, played.value).wallets;
    }
  }

  lemma PaymentPosting(db: Db, id: nat, op: Op)
    requires op.Pay? && RefusedAtOnce(op).None?
    ensures Agrees(Play(id, op, db.wallets, Keys(db), |Code(op)|), db, id, Atomic(db, id, op))
  {
    hide Cents, After, Fits, Funds.Refused, Play;
    var rows, keys := db.wallets, Keys(db);
    PlayNext(id, op, rows, keys, 0);
    PlayNext(id, op, rows, keys, 1);
    PlayNext(id, op, rows, keys, 2);
    PlayNext(id, op, rows, keys, 3);
    PlayNext(id, op, rows, keys, 4);
    PlayNext(id, op, rows, keys, 5);
    var played := Play(id, op, rows, keys, 6);
    if played.Ok? {
      assert played.value.balances == map[op.to := After(rows[op.to].balance, Credit, op.amount)];
      assert Atomic(db, id, op).value.ledger == Install(db, id, played.value).ledger;
      assert Atomic(db, id, op).value.wallets == Install(db, id, played.value).wallets;
    }
  }

  // Both posts of a transfer use snapshots taken up front, where the simple form lets
  // the second post read the result of the first: the same, for two distinct wallets.
  lemma DoublePosting(db: Db, id: nat, op: Op)
    requires op.Transfer? && op.from != op.to
    ensures Agrees(Play(id, op, db.wallets, Keys(db), |Code(op)|), db, id, Atomic(db, id, op))
  {
    hide Cents, After, Fits, Funds.Refused, Play;
    var rows, keys := db.wallets, Keys(db);
    PlayNext(id, op, rows, keys, 0);
    PlayNext(id, op, rows, keys, 1);
    PlayNext(id, op, rows, keys, 2);
    PlayNext(id, op, rows, keys, 3);
    PlayNext(id, op, rows, keys, 4);
    PlayNext(id, op, rows, keys, 5);
    PlayNext(id, op, rows, keys, 6);
    PlayNext(id, op, rows, keys, 7);
    PlayNext(id, op, rows, keys, 8);
    var played := Play(id, op, rows, keys, 9);
    if played.Ok? {
      assert played.value.balances
          == map[op.from := After(rows[op.from].balance, Debit, op.amount),
                 op.to := After(rows[op.to].balance, Credit, op.amount)];
      assert Atomic(db, id, op).value.ledger == Install(db, id, played.value).ledger;
      assert Atomic(db, id, op).value.wallets == Install(db, id, played.value).wallets;
    }
  }

  /** Why the same wallet twice has to be refused before: with one wallet on both sides the
      second snapshot overwrites the debit, and the balance grows by the amount, although the
      two entries cancel out. */
  lemma SelfTransferMints(db: Db, id: nat, op: Op)
    requires op.Transfer? && op.from == op.to && Refusal(op, db.wallets).None?
    requires Fits(Cents(op.amount))
    requires Fits(After(db.wallets[op.to].balance, Debit, op.amount))
    requires Fits(After(db.wallets[op.to].balance, Credit, op.amount))
    ensures var played := Play(id, op, db.wallets, Keys(db), |Code(op)|);
      && played.Ok?
      && var after := Install(db, id, played.value);
         && after.wallets[op.to].balance == After(db.wallets[op.to].balance, Credit, op.amount)
         && |after.ledger| == |db.ledger| + 2
         && after.ledger[|db.ledger|].kind == Debit && after.ledger[|db.ledger| + 1].kind == Credit
         && after.ledger[|db.ledger|].amount == after.ledger[|db.ledger| + 1].amount == Cents(op.amount)
  {
    hide Cents, After, Fits, Funds.Refused, Play;
    var rows, keys := db.wallets, Keys(db);
    PlayNext(id, op, rows, keys, 0);
    PlayNext(id, op, rows, keys, 1);
    PlayNext(id, op, rows, keys, 2);
    PlayNext(id, op, rows, keys, 3);
    PlayNext(id, op, rows, keys, 4);
    PlayNext(id, op, rows, keys, 5);
    PlayNext(id, op, rows, keys, 6);
    PlayNext(id, op, rows, keys, 7);
    PlayNext(id, op, rows, keys, 8);
  }

  /** The steps of a service method, run alone, are its simple form: the same tables on
      success and the same error on failure. */
  lemma PlayIsAtomic(db: Db, id: nat, op: Op)
    requires op.MovesMoney() && RefusedAtOnce(op).None?
    ensures Agrees(Play(id, op, db.wallets, Keys(db), |Code(op)|), db, id, Atomic(db, id, op))
  {
    match op
    case Deposit(to, _) => SinglePosting(db, id, op, to, Credit);
    case Withdraw(from, _) => SinglePosting(db, id, op, from, Debit);
    case Transfer(_, _, _) => DoublePosting(db, id, op);
    case Pay(_, _, _) => PaymentPosting(db, id, op);
  }

  // ----- what the steps depend on

  // The same of the operation's own rows are there, and they are the same.
  ghost predicate SameRows(op: Op, rows: map<nat, Wallet>, others: map<nat, Wallet>) {
    forall w: nat | op.Touches(w) :: (w in rows <==> w in others) && (w in rows ==> rows[w] == others[w])
  }

  /** The steps depend only on the rows of the operation's own wallets, and on the keys
      only once the payment is inserted, and then only on whether its own key is there. */
  lemma {:induction false} PlayDepends(id: nat, op: Op, rows: map<nat, Wallet>, others: map<nat, Wallet>,
                                       keys: set<string>, moreKeys: set<string>, n: nat)
    requires op.MovesMoney() && n <= |Code(op)|
    requires rows == others || SameRows(op, rows, others)
    requires op.Pay? && n == |Code(op)| ==> (op.key in keys <==> op.key in moreKeys)
    ensures Play(id, op, rows, keys, n) == Play(id, op, others, moreKeys, n)
  {
    if n > 0 {
      PlayDepends(id, op, rows, others, keys, moreKeys, n - 1);
      var played := Play(id, op, rows, keys, n - 1);
      if played.Ok? {
        ActDepends(id, op, rows, others, keys, moreKeys, n - 1, played.value);
      }
    }
  }

  lemma ActDepends(id: nat, op: Op, rows: map<nat, Wallet>, others: map<nat, Wallet>,
                   keys: set<string>, moreKeys: set<string>, n: nat, done: Writes)
    requires op.MovesMoney() && n < |Code(op)|
    requires rows == others || SameRows(op, rows, others)
    requires op.Pay? && n + 1 == |Code(op)| ==> (op.key in keys <==> op.key in moreKeys)
    ensures Act(id, op, rows, keys, Code(op)[n], done) == Act(id, op, others, moreKeys, Code(op)[n], done)
  {
    hide Cents, After, Funds.Refused, Refusal;
    var instr := Code(op)[n];
    if instr.AppendEntry? || instr.StoreBalance? {
      assert op.Touches(instr.w);
    } else if instr.Check? && rows != others {
      SameRefusal(op, rows, others);
    }
  }

  lemma SameRefusal(op: Op, rows: map<nat, Wallet>, others: map<nat, Wallet>)
    requires op.MovesMoney() && SameRows(op, rows, others)
    ensures Refusal(op, rows) == Refusal(op, others)
  {
    hide Funds.Refused;
    if op.Debited().Some? {
      assert op.Touches(op.from);
    }
    if op.Credited().Some? {
      assert op.Touches(op.to);
    }
  }

  /** While rows are still being locked nothing has been written. */
  lemma {:induction false} PlayLocks(id: nat, op: Op, rows: map<nat, Wallet>, keys: set<string>, n: nat)
    requires op.MovesMoney() && n <= Locks(op)
    ensures Play(id, op, rows, keys, n) == Ok(NOTHING)
  {
    if n > 0 {
      PlayLocks(id, op, rows, keys, n - 1);
    }
  }

  /** A run that got past its check was not refused. */
  lemma {:induction false} PlayChecked(id: nat, op: Op, rows: map<nat, Wallet>, keys: set<string>, n: nat)
    requires op.MovesMoney() && Locks(op) < n <= |Code(op)|
    requires Play(id, op, rows, keys, n).Ok?
    ensures Refusal(op, rows).None?
    decreases n
  {
    hide Cents, After, Funds.Refused, Refusal;
    if n > Locks(op) + 1 {
      PlayChecked(id, op, rows, keys, n - 1);
    }
  }

  lemma NotRefusedIsActive(op: Op, rows: map<nat, Wallet>, w: nat)
    requires op.MovesMoney() && Refusal(op, rows).None? && op.Touches(w)
    ensures w in rows && rows[w].status == Active && 0.0 < op.amount
    ensures op.Debited() == Some(w) ==> !Funds.Refused(rows[w].balance, op.amount)
  {
    hide Funds.Refused;
  }

  /** What a complete run has written: balances of its own wallets only, entries under
      its own id, and no payment unless it is one. */
  lemma {:induction false} PlayWrites(id: nat, op: Op, rows: map<nat, Wallet>, keys: set<string>, n: nat)
    requires op.MovesMoney() && n <= |Code(op)|
    requires Play(id, op, rows, keys, n).Ok?
    ensures forall w | w in Play(id, op, rows, keys, n).value.balances :: op.Touches(w)
    ensures forall e | e in Play(id, op, rows, keys, n).value.entries :: e.txId == id && op.Touches(e.walletId)
    ensures Play(id, op, rows, keys, n).value.payment.Some? ==>
              op.Pay? && n == |Code(op)| && Play(id, op, rows, keys, n).value.payment.value.key == op.key
    ensures Play(id, op, rows, keys, n).value.tx.Some? <==> Locks(op) + 1 < n
    ensures op.Pay? && n == |Code(op)| ==> op.key !in keys && Play(id, op, rows, keys, n).value.payment.Some?
  {
    if n > 0 {
      PlayWrites(id, op, rows, keys, n - 1);
      ActWrites(id, op, rows, keys, n - 1, Play(id, op, rows, keys, n - 1).value);
    }
  }

  lemma ActWrites(id: nat, op: Op, rows: map<nat, Wallet>, keys: set<string>, n: nat, done: Writes)
    requires op.MovesMoney() && n < |Code(op)|
    requires Act(id, op, rows, keys, Code(op)[n], done).Ok?
    ensures var more := Act(id, op, rows, keys, Code(op)[n], done).value;
      && (forall w | w in more.balances :: w in done.balances || op.Touches(w))
      && (forall e | e in more.entries :: e in done.entries || (e.txId == id && op.Touches(e.walletId)))
      && (more.payment == done.payment || (op.Pay? && n + 1 == |Code(op)| && more.payment.Some?))
      && (more.payment != done.payment ==> more.payment.value.key == op.key)
      && (op.Pay? && n + 1 == |Code(op)| ==> op.key !in keys && more.payment.Some?)
      && (more.tx.Some? <==> done.tx.Some? || n == Locks(op) + 1)
  {
    hide Cents, After, Funds.Refused, Refusal;
  }
}

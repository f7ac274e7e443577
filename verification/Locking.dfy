/** Strict two-phase locking: the invariant that every step keeps, and serializability. */
module Locking {
  import opened Money
  import opened Ledger
  import opened Tables
  import opened Program
  import opened Engine

  // ----- the invariant

  // Rows an operation may have locked after its first pc steps.
  predicate MayHold(op: Op, pc: nat, w: nat)
    requires op.MovesMoney()
  {
    op.Touches(w) && 0 < pc && (op.Transfer? && pc == 1 ==> Code(op)[0] == LockRow(w))
  }

  predicate HoldsKey(req: Req) {
    req.phase.InTx? && req.op.Pay? && req.phase.pc == |Code(req.op)|
  }

  predicate Holds(req: Req, res: Res) {
    match res
    case Row(w) => req.phase.InTx? && w in req.phase.snap
    case KeySlot(key) => HoldsKey(req) && req.op.key == key
  }

  // The lock table says who holds what, exactly.
  ghost predicate LockTable(locks: map<Res, nat>, reqs: map<nat, Req>) {
    && (forall res | res in locks :: locks[res] in reqs && Holds(reqs[locks[res]], res))
    && (forall id, res | id in reqs && Holds(reqs[id], res) :: res in locks && locks[res] == id)
  }

  predicate NotYetWritten(req: Req) {
    req.phase.Arrived? || req.phase.Missed? || req.phase.InTx? || req.phase.ReadDone?
  }

  predicate Shaped(req: Req) {
    match req.phase
    case InTx(pc, _, _) => req.op.MovesMoney() && RefusedAtOnce(req.op).None? && pc <= |Code(req.op)|
    case ReadDone => !req.op.MovesMoney()
    case Missed => req.op.Pay? && RefusedAtOnce(req.op).None?
    case Stored => req.op.Pay?
    case Cached => req.op.Pay?
    case Published => req.op.Pay?
    case Unwinding(_) => req.op.Pay?
    case _ => true
  }

  // A snapshot is still what the table holds.
  ghost predicate Current(snap: map<nat, Wallet>, db: Db) {
    forall x | x in snap :: x in db.wallets && db.wallets[x] == snap[x]
  }

  // A request is as if it had run alone on the tables as they are now.
  ghost predicate Fine(id: nat, req: Req, db: Db) {
    && Shaped(req)
    && (NotYetWritten(req) ==> id !in db.txs && id !in db.payments && id !in db.wallets)
    && (req.phase.InTx? ==>
          && Current(req.phase.snap, db)
          && (forall x | x in req.phase.snap :: MayHold(req.op, req.phase.pc, x))
          && Play(id, req.op, req.phase.snap, Keys(db), req.phase.pc) == Ok(req.phase.done))
  }

  ghost predicate Inv(w: World) {
    && LockTable(w.locks, w.reqs)
    && forall id | id in w.reqs :: Fine(id, w.reqs[id], w.db)
  }

  // ----- the lock table

  lemma LockTableKeep(locks: map<Res, nat>, reqs: map<nat, Req>, id: nat, req: Req)
    requires LockTable(locks, reqs)
    requires forall res :: Holds(req, res) <==> id in reqs && Holds(reqs[id], res)
    ensures LockTable(locks, reqs[id := req])
  {
  }

  lemma LockTableTake(locks: map<Res, nat>, reqs: map<nat, Req>, id: nat, req: Req, taken: Res)
    requires LockTable(locks, reqs) && id in reqs && taken !in locks
    requires forall res :: Holds(req, res) <==> Holds(reqs[id], res) || res == taken
    ensures LockTable(locks[taken := id], reqs[id := req])
  {
  }

  lemma LockTableDrop(locks: map<Res, nat>, reqs: map<nat, Req>, id: nat, req: Req)
    requires LockTable(locks, reqs) && forall res :: !Holds(req, res)
    ensures LockTable(Release(locks, id), reqs[id := req])
  {
    var released, after := Release(locks, id), reqs[id := req];
    forall j, res | j in after && Holds(after[j], res)
      ensures res in released && released[res] == j
    {
      assert j != id && res in locks && locks[res] == j;
    }
  }

  // ----- what other requests' steps leave alone

  lemma StaysFine(j: nat, req: Req, db: Db, after: Db)
    requires Fine(j, req, db)
    requires NotYetWritten(req) ==> j !in after.txs && j !in after.payments && j !in after.wallets
    requires req.phase.InTx? ==> Current(req.phase.snap, after)
    requires HoldsKey(req) ==> (req.op.key in Keys(db) <==> req.op.key in Keys(after))
    ensures Fine(j, req, after)
  {
    if req.phase.InTx? {
      var InTx(pc, snap, done) := req.phase;
      PlayDepends(j, req.op, snap, snap, Keys(db), Keys(after), pc);
    }
  }

  // A step of one request that changes no table.
  lemma OthersStay(w: World, w': World, id: nat)
    requires Inv(w) && w'.db == w.db && id in w'.reqs
    requires forall j | j in w'.reqs && j != id :: j in w.reqs && w'.reqs[j] == w.reqs[j]
    requires LockTable(w'.locks, w'.reqs)
    requires Fine(id, w'.reqs[id], w.db)
    ensures Inv(w')
  {
    forall j | j in w'.reqs
      ensures Fine(j, w'.reqs[j], w'.db)
    {
      if j != id {
        assert Fine(j, w.reqs[j], w.db);
      }
    }
  }

  // A request that is not in a transaction holds nothing.
  lemma PlainPhase(w: World, id: nat, req: Req)
    requires Inv(w) && id in w.reqs && !w.reqs[id].phase.InTx?
    requires req.phase.InTx? ==> req.phase.pc == 0 && req.phase.snap == map[]
    ensures LockTable(w.locks, w.reqs[id := req])
  {
    assert forall res :: !Holds(w.reqs[id], res) && !Holds(req, res);
    LockTableKeep(w.locks, w.reqs, id, req);
  }

  // ----- the steps

  lemma RollBackKeeps(w: World, id: nat, phase: Phase)
    requires Inv(w) && id in w.reqs
    requires phase.Finished? || (phase.Unwinding? && w.reqs[id].op.Pay?)
    ensures Inv(SetPhase(w, id, phase).(locks := Release(w.locks, id)))
  {
    var w' := SetPhase(w, id, phase).(locks := Release(w.locks, id));
    LockTableDrop(w.locks, w.reqs, id, w'.reqs[id]);
    OthersStay(w, w', id);
  }

  lemma TxStart(id: nat, op: Op, db: Db)
    requires op.MovesMoney()
    ensures Play(id, op, map[], Keys(db), 0) == Ok(NOTHING)
  {
  }

  // The phases a request can move to before it writes anything.
  predicate EarlyPhase(op: Op, phase: Phase) {
    || phase.Finished?
    || (phase.ReadDone? && !op.MovesMoney())
    || (phase.Missed? && op.Pay? && RefusedAtOnce(op).None?)
    || (phase == InTx(0, map[], NOTHING) && op.MovesMoney() && RefusedAtOnce(op).None?)
  }

  lemma EarlyFine(id: nat, req: Req, db: Db, req': Req)
    requires Fine(id, req, db) && NotYetWritten(req) && req'.op == req.op && EarlyPhase(req.op, req'.phase)
    ensures Fine(id, req', db)
  {
    hide RefusedAtOnce, Keys;
    if req'.phase.InTx? {
      TxStart(id, req.op, db);
    }
  }

  lemma BeginIsEarly(w: World, id: nat)
    requires id in w.reqs
    ensures EarlyPhase(w.reqs[id].op, Begin(w, id).reqs[id].phase)
    ensures Begin(w, id) == SetPhase(w, id, Begin(w, id).reqs[id].phase)
  {
    hide RefusedAtOnce, ReadRefusal;
  }

  lemma BeginKeeps(w: World, id: nat)
    requires Inv(w) && id in w.reqs && w.reqs[id].phase.Arrived?
    ensures Inv(Begin(w, id))
  {
    BeginIsEarly(w, id);
    hide Begin, Play;
    var w' := Begin(w, id);
    assert Fine(id, w.reqs[id], w.db);
    EarlyFine(id, w.reqs[id], w.db, w'.reqs[id]);
    PlainPhase(w, id, w'.reqs[id]);
    OthersStay(w, w', id);
  }

  lemma TakeKeyLockKeeps(w: World, id: nat)
    requires Inv(w) && id in w.reqs && w.reqs[id].phase.Missed? && w.reqs[id].op.Pay?
    ensures Inv(TakeKeyLock(w, id))
  {
    var w' := TakeKeyLock(w, id);
    assert Fine(id, w.reqs[id], w.db);
    PlainPhase(w, id, w'.reqs[id]);
    TxStart(id, w.reqs[id].op, w.db);
    OthersStay(w, w', id);
  }

  lemma CodeShape(op: Op, pc: nat)
    requires op.MovesMoney() && pc < |Code(op)|
    ensures Code(op)[pc].LockRow? <==> pc < Locks(op)
    ensures Code(op)[pc].LockRow? ==> op.Touches(Code(op)[pc].w)
    ensures Code(op)[pc].InsertPayment? <==> op.Pay? && pc + 1 == |Code(op)|
    ensures Locks(op) < |Code(op)|
  {
  }

  lemma LockStepTable(w: World, id: nat)
    requires Inv(w) && id in w.reqs && w.reqs[id].phase.InTx? && !Blocked(w, id)
    requires w.reqs[id].op.MovesMoney() && w.reqs[id].phase.pc < |Code(w.reqs[id].op)|
    requires Code(w.reqs[id].op)[w.reqs[id].phase.pc].LockRow?
    ensures LockTable(TxStep(w, id).locks, TxStep(w, id).reqs)
  {
    hide Play, Act, Fine;
    var req := w.reqs[id];
    var req' := TxStep(w, id).reqs[id];
    CodeShape(req.op, req.phase.pc);
    var x := Code(req.op)[req.phase.pc].w;
    assert !HoldsKey(req) && !HoldsKey(req');
    if x in w.db.wallets {
      LockTableTake(w.locks, w.reqs, id, req', Row(x));
    } else {
      LockTableKeep(w.locks, w.reqs, id, req');
    }
  }

  lemma LockStepFine(w: World, id: nat)
    requires Inv(w) && id in w.reqs && w.reqs[id].phase.InTx? && !Blocked(w, id)
    requires w.reqs[id].op.MovesMoney() && w.reqs[id].phase.pc < |Code(w.reqs[id].op)|
    requires Code(w.reqs[id].op)[w.reqs[id].phase.pc].LockRow?
    ensures Fine(id, TxStep(w, id).reqs[id], w.db)
  {
    hide Play, Act, LockTable, Keys;
    var req := w.reqs[id];
    var InTx(pc, snap, done) := req.phase;
    assert Fine(id, req, w.db);
    CodeShape(req.op, pc);
    PlayLocks(id, req.op, snap, Keys(w.db), pc);
    PlayLocks(id, req.op, TxStep(w, id).reqs[id].phase.snap, Keys(w.db), pc + 1);
  }

  lemma WriteStepTable(w: World, id: nat)
    requires Inv(w) && id in w.reqs && w.reqs[id].phase.InTx? && !Blocked(w, id)
    requires w.reqs[id].op.MovesMoney() && w.reqs[id].phase.pc < |Code(w.reqs[id].op)|
    requires !Code(w.reqs[id].op)[w.reqs[id].phase.pc].LockRow?
    requires TxStep(w, id).reqs[id].phase.InTx?
    ensures LockTable(TxStep(w, id).locks, TxStep(w, id).reqs)
  {
    hide Play, Act, Fine, Keys;
    var req := w.reqs[id];
    var req' := TxStep(w, id).reqs[id];
    CodeShape(req.op, req.phase.pc);
    assert !HoldsKey(req);
    if Code(req.op)[req.phase.pc].InsertPayment? {
      LockTableTake(w.locks, w.reqs, id, req', KeySlot(req.op.key));
    } else {
      LockTableKeep(w.locks, w.reqs, id, req');
    }
  }

  lemma WriteStepFine(w: World, id: nat)
    requires Inv(w) && id in w.reqs && w.reqs[id].phase.InTx? && !Blocked(w, id)
    requires w.reqs[id].op.MovesMoney() && w.reqs[id].phase.pc < |Code(w.reqs[id].op)|
    requires !Code(w.reqs[id].op)[w.reqs[id].phase.pc].LockRow?
    requires TxStep(w, id).reqs[id].phase.InTx?
    ensures Fine(id, TxStep(w, id).reqs[id], w.db)
  {
    hide Play, Act, LockTable, Keys;
    var req := w.reqs[id];
    assert Fine(id, req, w.db);
    PlayNext(id, req.op, req.phase.snap, Keys(w.db), req.phase.pc);
  }

  // A step inside a transaction changes nothing but its request and the locks …
  lemma TxStepFrame(w: World, id: nat)
    requires id in w.reqs && w.reqs[id].phase.InTx? && w.reqs[id].op.MovesMoney()
    requires w.reqs[id].phase.pc < |Code(w.reqs[id].op)|
    ensures var w' := TxStep(w, id);
      && w'.db == w.db && w'.log == w.log && w'.published == w.published && w'.cache == w.cache
      && w'.keyLocks == w.keyLocks && w'.now == w.now
      && id in w'.reqs && w'.reqs == w.reqs[id := w'.reqs[id]]
  {
    hide Act, Keys, Code, Release, RollBack;
    RollBackFrame(w, id);
  }

  lemma RollBackFrame(w: World, id: nat)
    requires id in w.reqs
    ensures forall cause ::
              var w' := RollBack(w, id, cause);
              && w'.db == w.db && w'.log == w.log && w'.published == w.published && w'.cache == w.cache
              && w'.keyLocks == w.keyLocks && w'.now == w.now
              && id in w'.reqs && w'.reqs == w.reqs[id := w'.reqs[id]]
  {
    hide Release;
  }

  // … and ends in the transaction or rolls it back.
  lemma TxStepShape(w: World, id: nat)
    requires id in w.reqs && w.reqs[id].phase.InTx? && w.reqs[id].op.MovesMoney()
    requires w.reqs[id].phase.pc < |Code(w.reqs[id].op)|
    ensures var w' := TxStep(w, id);
      && id in w'.reqs && w'.reqs[id].op == w.reqs[id].op && w'.reqs[id].since == w.reqs[id].since
      && (w'.reqs[id].phase.InTx? || exists cause :: w' == RollBack(w, id, cause))
  {
    hide Act, Keys, Code, Release;
  }

  lemma TxStepKeeps(w: World, id: nat)
    requires Inv(w) && id in w.reqs && w.reqs[id].phase.InTx? && !Blocked(w, id)
    requires w.reqs[id].op.MovesMoney() && w.reqs[id].phase.pc < |Code(w.reqs[id].op)|
    ensures Inv(TxStep(w, id))
  {
    TxStepFrame(w, id);
    TxStepShape(w, id);
    hide TxStep, Act, Play, Fine, LockTable, Blocked, Shaped;
    var w' := TxStep(w, id);
    if !w'.reqs[id].phase.InTx? {
      var cause :| w' == RollBack(w, id, cause);
      RollBackKeeps(w, id, w'.reqs[id].phase);
    } else {
      if Code(w.reqs[id].op)[w.reqs[id].phase.pc].LockRow? {
        LockStepTable(w, id);
        LockStepFine(w, id);
      } else {
        WriteStepTable(w, id);
        WriteStepFine(w, id);
      }
      OthersStay(w, w', id);
    }
  }

  // ----- commit

  /** A transaction that reached its commit is the simple form of its operation on the
      tables as they are at the commit, although it read them earlier. */
  lemma CommitIsAtomic(w: World, id: nat)
    requires Inv(w) && id in w.reqs && w.reqs[id].phase.InTx?
    requires w.reqs[id].phase.pc == |Code(w.reqs[id].op)|
    ensures Atomic(w.db, id, w.reqs[id].op) == Ok(Install(w.db, id, w.reqs[id].phase.done))
    ensures SameRows(w.reqs[id].op, w.reqs[id].phase.snap, w.db.wallets)
    ensures forall x: nat | w.reqs[id].op.Touches(x) :: x in w.reqs[id].phase.snap
  {
    hide Play, Act, Atomic, Install, Refusal, Funds.Refused;
    var req := w.reqs[id];
    var op := req.op;
    var InTx(pc, snap, done) := req.phase;
    assert Fine(id, req, w.db);
    CodeShape(op, 0);
    PlayChecked(id, op, snap, Keys(w.db), pc);
    forall x: nat | op.Touches(x)
      ensures x in snap && x in w.db.wallets && snap[x] == w.db.wallets[x]
    {
      NotRefusedIsActive(op, snap, x);
    }
    PlayDepends(id, op, snap, w.db.wallets, Keys(w.db), Keys(w.db), pc);
    PlayIsAtomic(w.db, id, op);
  }

  // What a commit does to the rows of others.
  lemma CommitTouches(w: World, id: nat)
    requires Inv(w) && id in w.reqs && w.reqs[id].phase.InTx?
    requires w.reqs[id].phase.pc == |Code(w.reqs[id].op)|
    ensures var after := CommitTx(w, id).db;
      && after.wallets.Keys == w.db.wallets.Keys
      && (forall x | x in w.db.wallets && !w.reqs[id].op.Touches(x) :: after.wallets[x] == w.db.wallets[x])
      && (forall t | t in after.txs :: t == id || t in w.db.txs)
      && (forall p | p in after.payments :: p == id || p in w.db.payments)
      && (forall p | p in w.db.payments :: p in after.payments && after.payments[p] == w.db.payments[p])
      && (id in after.payments <==> w.reqs[id].op.Pay?)
      && (w.reqs[id].op.Pay? ==> after.payments[id].key == w.reqs[id].op.key)
  {
    hide Play, Act;
    var req := w.reqs[id];
    assert Fine(id, req, w.db);
    CodeShape(req.op, 0);
    PlayWrites(id, req.op, req.phase.snap, Keys(w.db), req.phase.pc);
  }

  lemma CommitKeys(w: World, id: nat, key: string)
    requires Inv(w) && id in w.reqs && w.reqs[id].phase.InTx?
    requires w.reqs[id].phase.pc == |Code(w.reqs[id].op)|
    ensures key in Keys(CommitTx(w, id).db) <==>
              key in Keys(w.db) || (w.reqs[id].op.Pay? && key == w.reqs[id].op.key)
  {
    hide Install;
    CommitTouches(w, id);
    var after := CommitTx(w, id).db;
    if key in Keys(w.db) {
      var p :| p in w.db.payments && w.db.payments[p].key == key;
      assert p in after.payments && after.payments[p].key == key;
    }
    if w.reqs[id].op.Pay? && key == w.reqs[id].op.key {
      assert id in after.payments && after.payments[id].key == key;
    }
  }

  lemma CommitKeeps(w: World, id: nat)
    requires Inv(w) && id in w.reqs && w.reqs[id].phase.InTx?
    requires w.reqs[id].phase.pc == |Code(w.reqs[id].op)|
    ensures Inv(CommitTx(w, id))
  {
    hide Install, Atomic, Keys, Play;
    var w' := CommitTx(w, id);
    var op := w.reqs[id].op;
    CommitTouches(w, id);
    CommitIsAtomic(w, id);
    LockTableDrop(w.locks, w.reqs, id, w'.reqs[id]);
    forall j | j in w'.reqs
      ensures Fine(j, w'.reqs[j], w'.db)
    {
      if j != id {
        var req := w.reqs[j];
        assert Fine(j, req, w.db);
        if req.phase.InTx? {
          OthersRows(w, id, j);
        }
        if HoldsKey(req) {
          CommitKeys(w, id, req.op.key);
          OthersKey(w, id, j);
        }
        StaysFine(j, req, w.db, w'.db);
      }
    }
  }

  lemma OthersRows(w: World, id: nat, j: nat)
    requires Inv(w) && id in w.reqs && w.reqs[id].phase.InTx? && j in w.reqs && j != id
    requires w.reqs[id].phase.pc == |Code(w.reqs[id].op)| && w.reqs[j].phase.InTx?
    ensures Current(w.reqs[j].phase.snap, CommitTx(w, id).db)
  {
    hide Install, Atomic, Keys, Play;
    CommitTouches(w, id);
    CommitIsAtomic(w, id);
    var snap := w.reqs[j].phase.snap;
    assert Fine(j, w.reqs[j], w.db);
    forall x | x in snap
      ensures x in CommitTx(w, id).db.wallets && CommitTx(w, id).db.wallets[x] == snap[x]
    {
      assert Holds(w.reqs[j], Row(x));
      NotShared(w, id, j, x);
    }
  }

  lemma NotShared(w: World, id: nat, j: nat, x: nat)
    requires LockTable(w.locks, w.reqs) && id in w.reqs && j in w.reqs && j != id
    requires w.reqs[id].op.Touches(x) ==> Holds(w.reqs[id], Row(x))
    requires Holds(w.reqs[j], Row(x))
    ensures !w.reqs[id].op.Touches(x)
  {
    if w.reqs[id].op.Touches(x) {
      OnlyHolder(w, id, j, Row(x));
    }
  }

  /** No two requests ever hold the same row or the same key. */
  lemma OnlyHolder(w: World, i: nat, j: nat, res: Res)
    requires LockTable(w.locks, w.reqs) && i in w.reqs && j in w.reqs
    requires Holds(w.reqs[i], res) && Holds(w.reqs[j], res)
    ensures i == j && res in w.locks
  {
    assert w.locks[res] == i;
  }

  lemma OthersKey(w: World, id: nat, j: nat)
    requires Inv(w) && id in w.reqs && w.reqs[id].phase.InTx? && j in w.reqs && j != id
    requires w.reqs[id].phase.pc == |Code(w.reqs[id].op)| && HoldsKey(w.reqs[j])
    ensures w.reqs[id].op.Pay? ==> w.reqs[id].op.key != w.reqs[j].op.key
  {
    if w.reqs[id].op.Pay? && w.reqs[id].op.key == w.reqs[j].op.key {
      OnlyHolder(w, id, j, KeySlot(w.reqs[id].op.key));
    }
  }

  // ----- lifecycle and payment status writes

  // A lifecycle write changes one row, which nobody holds, or adds one.
  lemma LifecycleTouches(w: World, id: nat)
    requires id in w.reqs && w.reqs[id].phase.ReadDone? && !Blocked(w, id) && !w.reqs[id].op.MovesMoney()
    ensures var after := WriteLifecycle(w, id).db;
      && after.txs == w.db.txs && after.payments == w.db.payments && after.ledger == w.db.ledger
      && (forall x | x in w.db.wallets && Row(x) in w.locks ::
            x in after.wallets && after.wallets[x] == w.db.wallets[x])
      && (forall x | x in after.wallets :: x in w.db.wallets || x == id)
  {
  }

  lemma FinishedIsFine(id: nat, req: Req, db: Db)
    requires req.phase.Finished?
    ensures Fine(id, req, db)
  {
  }

  lemma LifecycleOther(w: World, id: nat, j: nat)
    requires Inv(w) && id in w.reqs && w.reqs[id].phase.ReadDone? && !Blocked(w, id)
    requires !w.reqs[id].op.MovesMoney() && j in w.reqs && j != id
    ensures Fine(j, w.reqs[j], WriteLifecycle(w, id).db)
  {
    LifecycleTouches(w, id);
    hide WriteLifecycle, Play, Blocked, Keys;
    var req, after := w.reqs[j], WriteLifecycle(w, id).db;
    assert Fine(j, req, w.db);
    if req.phase.InTx? {
      forall x | x in req.phase.snap
        ensures x in after.wallets && after.wallets[x] == req.phase.snap[x]
      {
        assert Holds(req, Row(x));
      }
    }
    KeysOnlyPayments(w.db, after);
    StaysFine(j, req, w.db, after);
  }

  lemma LifecycleKeeps(w: World, id: nat)
    requires Inv(w) && id in w.reqs && w.reqs[id].phase.ReadDone? && !Blocked(w, id)
    requires !w.reqs[id].op.MovesMoney()
    ensures Inv(WriteLifecycle(w, id))
  {
    var w' := WriteLifecycle(w, id);
    PlainPhase(w, id, w'.reqs[id]);
    hide LifecycleWrite, Blocked, LockTable, Fine;
    forall j | j in w'.reqs
      ensures Fine(j, w'.reqs[j], w'.db)
    {
      if j != id {
        LifecycleOther(w, id, j);
      } else {
        FinishedIsFine(id, w'.reqs[id], w'.db);
      }
    }
  }

  lemma KeysOnlyPayments(db: Db, after: Db)
    requires forall p :: p in db.payments <==> p in after.payments
    requires forall p | p in db.payments :: db.payments[p].key == after.payments[p].key
    ensures Keys(db) == Keys(after)
  {
    forall key
      ensures key in Keys(db) <==> key in Keys(after)
    {
      if key in Keys(db) {
        var p :| p in db.payments && db.payments[p].key == key;
        assert after.payments[p].key == key;
      }
      if key in Keys(after) {
        var p :| p in after.payments && after.payments[p].key == key;
        assert db.payments[p].key == key;
      }
    }
  }

  lemma PaymentStatusTouches(w: World, p: nat, success: bool)
    ensures var after := PaymentStatusStep(w, p, success);
      && after.db.wallets == w.db.wallets && after.db.txs == w.db.txs && after.db.ledger == w.db.ledger
      && after.reqs == w.reqs && after.locks == w.locks
      && (forall q :: q in after.db.payments <==> q in w.db.payments)
      && (forall q | q in w.db.payments :: after.db.payments[q].key == w.db.payments[q].key)
  {
    if SetPayment(w.db, p, success).Ok? {
      assert PaymentStatusStep(w, p, success).db.payments.Keys == w.db.payments.Keys;
    }
  }

  lemma PaymentStatusKeeps(w: World, p: nat, success: bool)
    requires Inv(w)
    ensures Inv(PaymentStatusStep(w, p, success))
  {
    PaymentStatusTouches(w, p, success);
    hide PaymentStatusStep, LockTable, Play, Keys;
    var w' := PaymentStatusStep(w, p, success);
    KeysOnlyPayments(w.db, w'.db);
    forall j | j in w'.reqs
      ensures Fine(j, w'.reqs[j], w'.db)
    {
      assert Fine(j, w.reqs[j], w.db);
      StaysFine(j, w.reqs[j], w.db, w'.db);
    }
  }

  // ----- every step

  lemma ProceedKeeps(w: World, id: nat)
    requires Inv(w) && Enabled(w, Advance(id))
    ensures Inv(Proceed(w, id))
  {
    hide Play, Act, Install, Atomic, Keys;
    var req := w.reqs[id];
    assert Fine(id, req, w.db);
    match req.phase
    case Arrived => BeginKeeps(w, id);
    case Missed => TakeKeyLockKeeps(w, id);
    case InTx(pc, _, _) =>
      if pc < |Code(req.op)| {
        TxStepKeeps(w, id);
      } else {
        CommitKeeps(w, id);
      }
    case ReadDone => LifecycleKeeps(w, id);
    case Stored => AfterCommitKeeps(w, id);
    case Cached => AfterCommitKeeps(w, id);
    case Published => AfterCommitKeeps(w, id);
    case Unwinding(_) => AfterCommitKeeps(w, id);
    case Finished(_) => assert false;
  }

  lemma AfterCommitKeeps(w: World, id: nat)
    requires Inv(w) && Enabled(w, Advance(id))
    requires var p := w.reqs[id].phase; p.Stored? || p.Cached? || p.Published? || p.Unwinding?
    ensures Inv(Proceed(w, id))
  {
    hide Play, Keys;
    var w' := Proceed(w, id);
    assert Fine(id, w.reqs[id], w.db);
    PlainPhase(w, id, w'.reqs[id]);
    OthersStay(w, w', id);
  }

  /** Every step of every interleaving keeps the locking invariant. */
  lemma StepKeeps(w: World, a: Action)
    requires Inv(w) && Enabled(w, a)
    ensures Inv(Step(w, a))
  {
    hide Play, Act, Install, Atomic, Keys, Proceed, RollBack;
    var w' := Step(w, a);
    match a
    case Spawn(id, op) =>
      LockTableKeep(w.locks, w.reqs, id, w'.reqs[id]);
      OthersStay(w, w', id);
    case Advance(id) => ProceedKeeps(w, id);
    case Abort(id) => AbortKeeps(w, id);
    case Crash(id) => RollBackKeeps(w, id, Finished(Outcome.Crashed));
    case RedisFail(id, _) =>
      assert Fine(id, w.reqs[id], w.db);
      PlainPhase(w, id, w'.reqs[id]);
      OthersStay(w, w', id);
    case Tick(_) =>
    case Deliver(p) => PaymentStatusKeeps(w, p, true);
    case Verify(p, success) => PaymentStatusKeeps(w, p, success);
  }

  lemma AbortKeeps(w: World, id: nat)
    requires Inv(w) && Enabled(w, Abort(id))
    ensures Inv(RollBack(w, id, DatabaseFailed))
  {
    RollBackKeeps(w, id, RollBack(w, id, DatabaseFailed).reqs[id].phase);
  }

  // ----- serializability

  // The tables are what the logged changes leave when run one at a time.
  ghost predicate Serial(db0: Db, w: World) {
    RunLog(db0, w.log) == Ok(w.db)
  }

  // What a step commits, if anything.
  function Committed(w: World, a: Action): Option<Commit>
    requires Enabled(w, a)
  {
    match a
    case Advance(id) =>
      var req := w.reqs[id];
      if req.phase.InTx? && req.op.MovesMoney() && |Code(req.op)| <= req.phase.pc then Some(Request(id, req.op))
      else if req.phase.ReadDone? && !req.op.MovesMoney() && LifecycleWrite(w.db, id, req.op).Ok?
      then Some(Request(id, req.op))
      else None
    case Deliver(p) => Some(PaymentSet(p, true))
    case Verify(p, success) => Some(PaymentSet(p, success))
    case _ => None
  }

  /** A step either commits nothing and leaves every table as it was, or commits one
      change, and then the tables become what that change alone makes of them. */
  lemma StepCommits(w: World, a: Action)
    requires Inv(w) && Enabled(w, a)
    ensures Committed(w, a).None? ==> Step(w, a).db == w.db && Step(w, a).log == w.log
    ensures Committed(w, a).Some? ==> Step(w, a).log == w.log + [Committed(w, a).value]
    ensures Committed(w, a).Some? ==> Do(w.db, Committed(w, a).value) == Ok(Step(w, a).db)
  {
    hide Play, Act, Install, Atomic, Keys, Inv, Proceed, SetPayment, LifecycleWrite;
    if a.Advance? {
      ProceedCommits(w, a.id);
    } else if a.Deliver? || a.Verify? {
      assert SetPayment(w.db, a.payment, true).Ok? && SetPayment(w.db, a.payment, false).Ok? by {
        PaymentExists(w.db, a.payment);
      }
    }
  }

  lemma PaymentExists(db: Db, p: nat)
    requires p in db.payments
    ensures SetPayment(db, p, true).Ok? && SetPayment(db, p, false).Ok?
  {
  }

  ghost predicate CommitsAs(w: World, c: Option<Commit>, w': World) {
    && (c.None? ==> w'.db == w.db && w'.log == w.log)
    && (c.Some? ==> w'.log == w.log + [c.value] && Do(w.db, c.value) == Ok(w'.db))
  }

  lemma ProceedCommits(w: World, id: nat)
    requires Inv(w) && Enabled(w, Advance(id))
    ensures CommitsAs(w, Committed(w, Advance(id)), Proceed(w, id))
  {
    assert Fine(id, w.reqs[id], w.db);
    var phase := w.reqs[id].phase;
    if phase.InTx? {
      hide Atomic, TxStep, CommitTx;
      TxCommits(w, id);
    } else if phase.ReadDone? {
      hide LifecycleWrite, Atomic;
    } else {
      QuietProceed(w, id);
      hide Proceed, Do;
    }
  }

  lemma QuietProceed(w: World, id: nat)
    requires Inv(w) && Enabled(w, Advance(id)) && !w.reqs[id].phase.InTx? && !w.reqs[id].phase.ReadDone?
    ensures Proceed(w, id).db == w.db && Proceed(w, id).log == w.log
  {
    hide Inv, ReadRefusal, RefusedAtOnce;
  }

  lemma TxCommits(w: World, id: nat)
    requires Inv(w) && id in w.reqs && w.reqs[id].phase.InTx?
    ensures w.reqs[id].op.MovesMoney() && w.reqs[id].phase.pc <= |Code(w.reqs[id].op)|
    ensures w.reqs[id].phase.pc < |Code(w.reqs[id].op)| ==>
              TxStep(w, id).db == w.db && TxStep(w, id).log == w.log
    ensures w.reqs[id].phase.pc == |Code(w.reqs[id].op)| ==>
              && CommitTx(w, id).log == w.log + [Request(id, w.reqs[id].op)]
              && Do(w.db, Request(id, w.reqs[id].op)) == Ok(CommitTx(w, id).db)
  {
    hide Play, Act, Install, Atomic, Keys;
    assert Fine(id, w.reqs[id], w.db);
    if w.reqs[id].phase.pc == |Code(w.reqs[id].op)| {
      CommitIsAtomic(w, id);
    }
  }

  lemma InitialInv(w: World)
    requires Initial(w)
    ensures Inv(w)
  {
  }
}

/** Why a request fails, in any interleaving: every error that a request throws is the one
    that its simple form gives on the tables of that moment, or a failure of the database or
    of Redis. */
module Failures {
  import opened Tables
  import opened Program
  import opened Engine
  import opened Locking
  import opened Frames
  import opened Runs
  import opened Solo

  predicate Failed(phase: Phase, e: Error) {
    phase == Finished(Thrown(e)) || phase == Unwinding(e)
  }

  // A wallet that is there now and was not when the transaction came to lock it.
  ghost predicate CreatedSince(w: World, id: nat)
    requires id in w.reqs && w.reqs[id].phase.InTx?
  {
    exists x: nat :: w.reqs[id].op.Touches(x) && x in w.db.wallets && x !in w.reqs[id].phase.snap
  }

  // The reason for an error that a request's own step throws.
  ghost predicate Justified(w: World, id: nat, e: Error)
    requires id in w.reqs
  {
    var op := w.reqs[id].op;
    match w.reqs[id].phase
    case Arrived => Whole(w.db, id, op) == Err(e)
    case Missed => op.Pay? && e == KeyBusy && Alive(w.keyLocks, op.key, w.now)
    case InTx(_, _, _) =>
      && op.MovesMoney()
      && (Atomic(w.db, id, op) == Err(e) || (e == WalletNotFound && CreatedSince(w, id)))
    case ReadDone => !op.MovesMoney() && LifecycleWrite(w.db, id, op) == Err(e)
    case _ => false
  }

  // ----- inside a transaction

  lemma NothingCreated(w: World, id: nat)
    requires id in w.reqs && w.reqs[id].phase.InTx? && w.reqs[id].op.MovesMoney() && !CreatedSince(w, id)
    ensures Complete(w, id)
  {
    var code := Code(w.reqs[id].op);
    forall m | 0 <= m < |code| && code[m].LockRow?
      ensures w.reqs[id].op.Touches(code[m].w)
    {
      CodeShape(w.reqs[id].op, m);
    }
    hide Code;
  }

  lemma MissingRow(db: Db, id: nat, op: Op, snap: map<nat, Wallet>, x: nat)
    requires op.MovesMoney() && RefusedAtOnce(op).None? && op.Touches(x) && x !in snap
    ensures Refusal(op, snap).Some?
    ensures Refusal(op, snap) == Some(WalletNotFound) || Atomic(db, id, op) == Err(Refusal(op, snap).value)
  {
    hide Funds.Refused;
  }

  lemma AtTheCheck(w: World, id: nat, x: nat)
    requires Inv(w) && id in w.reqs && w.reqs[id].phase.InTx? && w.reqs[id].op.MovesMoney()
    requires w.reqs[id].phase.pc < |Code(w.reqs[id].op)| && !Code(w.reqs[id].op)[w.reqs[id].phase.pc].LockRow?
    requires w.reqs[id].op.Touches(x) && x !in w.reqs[id].phase.snap
    ensures Code(w.reqs[id].op)[w.reqs[id].phase.pc] == Check
  {
    var op := w.reqs[id].op;
    var InTx(pc, snap, _) := w.reqs[id].phase;
    assert Fine(id, w.reqs[id], w.db);
    hide Inv, Play, Refusal;
    CodeShape(op, pc);
    if Locks(op) < pc {
      PlayChecked(id, op, snap, Keys(w.db), pc);
      NotRefusedIsActive(op, snap, x);
    }
  }

  lemma StatementFails(w: World, id: nat, e: Error)
    requires id in w.reqs && w.reqs[id].phase.InTx? && w.reqs[id].op.MovesMoney()
    requires w.reqs[id].phase.pc < |Code(w.reqs[id].op)|
    requires id in TxStep(w, id).reqs && Failed(TxStep(w, id).reqs[id].phase, e)
    ensures var InTx(pc, snap, done), op := w.reqs[id].phase, w.reqs[id].op;
      !Code(op)[pc].LockRow? && Act(id, op, snap, Keys(w.db), Code(op)[pc], done) == Err(e)
  {
    hide Act, Code, Keys, Release;
  }

  lemma CheckFails(w: World, id: nat, e: Error, x: nat)
    requires Inv(w) && id in w.reqs && w.reqs[id].phase.InTx? && w.reqs[id].op.MovesMoney()
    requires w.reqs[id].phase.pc < |Code(w.reqs[id].op)| && !Code(w.reqs[id].op)[w.reqs[id].phase.pc].LockRow?
    requires var InTx(pc, snap, done), op := w.reqs[id].phase, w.reqs[id].op;
      Act(id, op, snap, Keys(w.db), Code(op)[pc], done) == Err(e)
    requires w.reqs[id].op.Touches(x) && x !in w.reqs[id].phase.snap
    ensures Atomic(w.db, id, w.reqs[id].op) == Err(e) || e == WalletNotFound
  {
    assert RefusedAtOnce(w.reqs[id].op).None? by {
      assert Fine(id, w.reqs[id], w.db);
    }
    AtTheCheck(w, id, x);
    MissingRow(w.db, id, w.reqs[id].op, w.reqs[id].phase.snap, x);
    hide Inv, Atomic, Code, Refusal, RefusedAtOnce, Keys;
  }

  lemma TransactionFails(w: World, id: nat, e: Error)
    requires Inv(w) && id in w.reqs && w.reqs[id].phase.InTx? && w.reqs[id].op.MovesMoney()
    requires w.reqs[id].phase.pc < |Code(w.reqs[id].op)|
    requires id in TxStep(w, id).reqs && Failed(TxStep(w, id).reqs[id].phase, e)
    ensures Atomic(w.db, id, w.reqs[id].op) == Err(e) || (e == WalletNotFound && CreatedSince(w, id))
  {
    hide Inv, TxStep, Atomic, Complete, Code, Act, Keys;
    StatementFails(w, id, e);
    if CreatedSince(w, id) {
      var x: nat :| w.reqs[id].op.Touches(x) && x in w.db.wallets && x !in w.reqs[id].phase.snap;
      CheckFails(w, id, e, x);
    } else {
      NothingCreated(w, id);
      FailsAsAtomic(w, id);
    }
  }

  // ----- every step

  lemma RefusedFails(db: Db, id: nat, op: Op)
    requires op.MovesMoney() && RefusedAtOnce(op).Some?
    ensures Atomic(db, id, op) == Err(RefusedAtOnce(op).value)
  {
    hide RefusedAtOnce, Refusal, Post, AddTx, AddPayment, TxOf;
  }

  lemma BeginPhase(w: World, id: nat, e: Error)
    requires id in w.reqs && Failed(Begin(w, id).reqs[id].phase, e)
    ensures var op := w.reqs[id].op;
      if op.MovesMoney() then RefusedAtOnce(op) == Some(e) else ReadRefusal(op, w.db) == Some(e)
  {
    hide ReadRefusal, RefusedAtOnce;
  }

  lemma BeginFails(w: World, id: nat, e: Error)
    requires id in w.reqs && Failed(Begin(w, id).reqs[id].phase, e)
    ensures Whole(w.db, id, w.reqs[id].op) == Err(e)
  {
    hide ReadRefusal, RefusedAtOnce, LifecycleWrite, Atomic, Begin, Failed;
    BeginPhase(w, id, e);
    if w.reqs[id].op.MovesMoney() {
      RefusedFails(w.db, id, w.reqs[id].op);
    }
  }

  /** No spurious failure: when a step of its own makes a request fail, the error is the one
      that its simple form gives on the tables of that moment; a lock on its key that is still
      alive; for a status write or a new wallet the error of the write; or, in a transaction, a
      wallet that did not exist when its row was to be locked and was created since. */
  lemma FailureIsJustified(w: World, id: nat, e: Error)
    requires Inv(w) && Enabled(w, Advance(id)) && !w.reqs[id].phase.Unwinding?
    requires id in Proceed(w, id).reqs && Failed(Proceed(w, id).reqs[id].phase, e)
    ensures Justified(w, id, e)
  {
    assert Shaped(w.reqs[id]) by {
      assert Fine(id, w.reqs[id], w.db);
    }
    hide Inv, Blocked, TxStep, CommitTx, Begin, TakeKeyLock, WriteLifecycle, Whole, Code, Atomic, Failed;
    var op := w.reqs[id].op;
    match w.reqs[id].phase
    case Arrived => BeginFails(w, id, e);
    case Missed => LockFails(w, id, e);
    case InTx(pc, _, _) =>
      if pc < |Code(op)| {
        TransactionFails(w, id, e);
      } else {
        CommitDoesNotFail(w, id, e);
      }
    case ReadDone => WriteFails(w, id, e);
    case _ => LateStepsDoNotFail(w, id, e);
  }

  lemma LockFails(w: World, id: nat, e: Error)
    requires id in w.reqs && w.reqs[id].op.Pay? && Failed(TakeKeyLock(w, id).reqs[id].phase, e)
    ensures e == KeyBusy && Alive(w.keyLocks, w.reqs[id].op.key, w.now)
  {
  }

  lemma CommitDoesNotFail(w: World, id: nat, e: Error)
    requires id in w.reqs && w.reqs[id].phase.InTx?
    ensures id in CommitTx(w, id).reqs && !Failed(CommitTx(w, id).reqs[id].phase, e)
  {
    hide Install, Release;
  }

  lemma WriteFails(w: World, id: nat, e: Error)
    requires id in w.reqs && !w.reqs[id].op.MovesMoney() && Failed(WriteLifecycle(w, id).reqs[id].phase, e)
    ensures LifecycleWrite(w.db, id, w.reqs[id].op) == Err(e)
  {
    hide LifecycleWrite;
  }

  lemma LateStepsDoNotFail(w: World, id: nat, e: Error)
    requires Enabled(w, Advance(id)) && w.reqs[id].op.Pay?
    requires var p := w.reqs[id].phase; p.Stored? || p.Cached? || p.Published?
    ensures id in Proceed(w, id).reqs && !Failed(Proceed(w, id).reqs[id].phase, e)
  {
    hide Blocked;
  }

  lemma FirstFailure(w: World, a: Action, id: nat, e: Error)
    requires Inv(w) && Enabled(w, a) && id in Step(w, a).reqs && Failed(Step(w, a).reqs[id].phase, e)
    requires id in w.reqs ==> !Failed(w.reqs[id].phase, e)
    ensures id in w.reqs
    ensures || (a == Abort(id) && e == DatabaseFailed)
            || (a.RedisFail? && a.id == id && e == RedisFailed)
            || (a == Advance(id) && Justified(w, id, e))
  {
    StepSuccessor(w, a);
    if a == Advance(id) {
      if w.reqs[id].phase.Unwinding? {
        RethrowsItsCause(w, id);
        hide Inv, Proceed;
      } else {
        hide Proceed, Justified, Inv, Enabled;
        FailureIsJustified(w, id, e);
      }
    } else if Subject(a) == Some(id) {
      hide Inv, Proceed, Release, RedisCommand;
    } else {
      hide Step, Inv;
    }
  }

  lemma RethrowsItsCause(w: World, id: nat)
    requires Enabled(w, Advance(id)) && w.reqs[id].phase.Unwinding? && w.reqs[id].op.Pay?
    ensures id in Proceed(w, id).reqs && Proceed(w, id).reqs[id].phase == Finished(Thrown(w.reqs[id].phase.cause))
  {
    hide Blocked;
  }

  /** Every error that a caller ever gets, in any run, goes back to one step: an abort by the
      database, a Redis command that threw, or a step of the request itself whose error the
      tables, or the lock of its key, justified at that moment. */
  lemma {:induction false} WhyThrown(ws: seq<World>, acts: seq<Action>, i: nat, id: nat, e: Error) returns (k: nat)
    requires Run(ws, acts) && i < |ws| && id in ws[i].reqs && Failed(ws[i].reqs[id].phase, e)
    ensures k < i && id in ws[k].reqs
    ensures || (acts[k] == Abort(id) && e == DatabaseFailed)
            || (acts[k].RedisFail? && acts[k].id == id && e == RedisFailed)
            || (acts[k] == Advance(id) && Justified(ws[k], id, e))
  {
    hide Step, Inv, Enabled, Justified;
    RunInvariants(ws, acts, i - 1);
    assert Next(ws[i - 1], acts[i - 1], ws[i]);
    if id in ws[i - 1].reqs && Failed(ws[i - 1].reqs[id].phase, e) {
      k := WhyThrown(ws, acts, i - 1, id, e);
    } else {
      FirstFailure(ws[i - 1], acts[i - 1], id, e);
      k := i - 1;
    }
  }
}

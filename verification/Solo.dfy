/** A request advanced by itself: the engine's many steps amount to the one call that the
    service method is. */
module Solo {
  import opened Tables
  import opened Program
  import opened Engine
  import opened Locking
  import opened Frames
  import opened Progress
  import opened Bank

  // A schedule in which nobody but id steps, starting in w0 and now in w.
  ghost predicate Alone(w0: World, ws: seq<World>, acts: seq<Action>, id: nat, w: World) {
    && From(w0, ws, acts) && ws[|acts|] == w
    && forall a | a in acts :: a == Advance(id)
  }

  lemma Go(w0: World, ws: seq<World>, acts: seq<Action>, id: nat, w: World)
    returns (more: seq<World>, moreActs: seq<Action>)
    requires Alone(w0, ws, acts, id, w) && Enabled(w, Advance(id))
    ensures Alone(w0, more, moreActs, id, Proceed(w, id))
  {
    hide Enabled, Proceed;
    more, moreActs := ws + [Step(w, Advance(id))], acts + [Advance(id)];
    forall i | 0 <= i < |moreActs|
      ensures Next(more[i], moreActs[i], more[i + 1])
    {
      if i < |acts| {
        assert Next(ws[i], acts[i], ws[i + 1]);
      }
    }
  }

  // An id that no row and no request has: every request draws one.
  predicate Fresh(w: World, id: nat) {
    id !in w.reqs && id !in w.db.wallets && id !in w.db.txs && id !in w.db.payments
  }

  // Only id holds anything.
  ghost predicate Quiet(w: World, id: nat) {
    forall res | res in w.locks :: w.locks[res] == id
  }

  // Of the rows that it has asked for, id has locked those that exist.
  ghost predicate Complete(w: World, id: nat)
    requires id in w.reqs && w.reqs[id].phase.InTx? && w.reqs[id].op.MovesMoney()
  {
    var InTx(pc, snap, _) := w.reqs[id].phase;
    var code := Code(w.reqs[id].op);
    forall m | 0 <= m < |code| && m < pc && code[m].LockRow? && code[m].w in w.db.wallets :: code[m].w in snap
  }

  // Everything but the request, its locks and, at a commit, the tables and their log.
  ghost predicate SameScene(w: World, w': World, id: nat) {
    && w'.cache == w.cache && w'.keyLocks == w.keyLocks && w'.now == w.now && w'.published == w.published
    && id in w.reqs && id in w'.reqs && w'.reqs == w.reqs[id := w'.reqs[id]]
    && w'.reqs[id].op == w.reqs[id].op
  }

  lemma NeverWaits(w: World, id: nat)
    requires Inv(w) && Quiet(w, id) && id in w.reqs && w.reqs[id].Live()
    ensures Enabled(w, Advance(id))
  {
    hide Inv, Wants;
    var wants := Wants(w.reqs[id], w.db);
    if wants.Some? && wants.value in w.locks {
      HolderOf(w, wants.value);
      HolderWantsMore(w, id, wants.value);
    }
  }

  // ----- the database transaction

  // What the transaction of id ends as, when it started on the tables of w.
  ghost predicate Ended(w: World, w': World, id: nat)
    requires id in w.reqs && w.reqs[id].op.MovesMoney()
  {
    && SameScene(w, w', id) && Inv(w') && Quiet(w', id)
    && match Atomic(w.db, id, w.reqs[id].op)
       case Ok(db) =>
         w'.db == db && w'.reqs[id].phase == if w.reqs[id].op.Pay? then Stored else Finished(Returned(None))
       case Err(e) =>
         w'.db == w.db && w'.reqs[id].phase == if w.reqs[id].op.Pay? then Unwinding(e) else Finished(Thrown(e))
  }

  lemma {:induction false} ErrorStays(id: nat, op: Op, rows: map<nat, Wallet>, keys: set<string>, n: nat, m: nat)
    requires op.MovesMoney() && n <= m <= |Code(op)| && Play(id, op, rows, keys, n).Err?
    ensures Play(id, op, rows, keys, m) == Play(id, op, rows, keys, n)
  {
    if n < m {
      ErrorStays(id, op, rows, keys, n, m - 1);
      PlayNext(id, op, rows, keys, m - 1);
    }
  }

  lemma AllLocked(w: World, id: nat)
    requires Inv(w) && id in w.reqs && w.reqs[id].phase.InTx? && w.reqs[id].op.MovesMoney() && Complete(w, id)
    requires Locks(w.reqs[id].op) <= w.reqs[id].phase.pc
    ensures SameRows(w.reqs[id].op, w.reqs[id].phase.snap, w.db.wallets)
  {
    assert Fine(id, w.reqs[id], w.db);
    var op, snap := w.reqs[id].op, w.reqs[id].phase.snap;
    hide Inv, Play, LockTable;
    forall x: nat | op.Touches(x)
      ensures x in w.db.wallets ==> x in snap
    {
      assert Code(op)[0] == LockRow(x) || (op.Transfer? && Code(op)[1] == LockRow(x));
    }
  }

  // A statement that fails fails as the simple form does.
  lemma FailsAsAtomic(w: World, id: nat)
    requires Inv(w) && id in w.reqs && w.reqs[id].phase.InTx? && w.reqs[id].op.MovesMoney() && Complete(w, id)
    requires w.reqs[id].phase.pc < |Code(w.reqs[id].op)| && !Code(w.reqs[id].op)[w.reqs[id].phase.pc].LockRow?
    requires var InTx(pc, snap, done) := w.reqs[id].phase;
      Act(id, w.reqs[id].op, snap, Keys(w.db), Code(w.reqs[id].op)[pc], done).Err?
    ensures var InTx(pc, snap, done) := w.reqs[id].phase;
      Atomic(w.db, id, w.reqs[id].op)
      == Err(Act(id, w.reqs[id].op, snap, Keys(w.db), Code(w.reqs[id].op)[pc], done).error)
  {
    var op := w.reqs[id].op;
    var InTx(pc, snap, done) := w.reqs[id].phase;
    assert Fine(id, w.reqs[id], w.db);
    CodeShape(op, pc);
    AllLocked(w, id);
    hide Play, Act, Atomic, Inv, Keys, Code, SameRows;
    PlayNext(id, op, snap, Keys(w.db), pc);
    ErrorStays(id, op, snap, Keys(w.db), pc + 1, |Code(op)|);
    PlayDepends(id, op, snap, w.db.wallets, Keys(w.db), Keys(w.db), |Code(op)|);
    PlayIsAtomic(w.db, id, op);
  }

  lemma QuietAfter(w: World, id: nat)
    requires Quiet(w, id) && id in w.reqs && w.reqs[id].phase.InTx? && w.reqs[id].op.MovesMoney()
    ensures w.reqs[id].phase.pc < |Code(w.reqs[id].op)| ==> Quiet(TxStep(w, id), id)
    ensures Quiet(CommitTx(w, id), id)
  {
    hide Act, Install, Keys, Code;
  }

  lemma SnapAfter(w: World, id: nat)
    requires id in w.reqs && w.reqs[id].phase.InTx? && w.reqs[id].op.MovesMoney()
    requires w.reqs[id].phase.pc < |Code(w.reqs[id].op)| && TxStep(w, id).reqs[id].phase.InTx?
    ensures var InTx(pc, snap, _), instr := w.reqs[id].phase, Code(w.reqs[id].op)[w.reqs[id].phase.pc];
      && TxStep(w, id).reqs[id].phase.pc == pc + 1
      && TxStep(w, id).reqs[id].phase.snap
         == if instr.LockRow? && instr.w in w.db.wallets then snap[instr.w := w.db.wallets[instr.w]] else snap
  {
    hide Act, Keys, Code, Release;
  }

  lemma CompleteAfter(w: World, id: nat)
    requires id in w.reqs && w.reqs[id].phase.InTx? && w.reqs[id].op.MovesMoney() && Complete(w, id)
    requires w.reqs[id].phase.pc < |Code(w.reqs[id].op)|
    requires id in TxStep(w, id).reqs && TxStep(w, id).reqs[id].phase.InTx?
    requires TxStep(w, id).reqs[id].op == w.reqs[id].op && TxStep(w, id).db == w.db
    ensures Complete(TxStep(w, id), id)
    ensures TxStep(w, id).reqs[id].phase.pc == w.reqs[id].phase.pc + 1
  {
    SnapAfter(w, id);
    hide TxStep, Code;
  }

  lemma RollBackEnds(w: World, id: nat)
    requires Inv(w) && Quiet(w, id) && id in w.reqs && w.reqs[id].phase.InTx? && w.reqs[id].op.MovesMoney()
    requires Complete(w, id) && Enabled(w, Advance(id)) && w.reqs[id].phase.pc < |Code(w.reqs[id].op)|
    requires id in TxStep(w, id).reqs && !TxStep(w, id).reqs[id].phase.InTx?
    ensures Ended(w, TxStep(w, id), id)
  {
    TxStepFrame(w, id);
    TxStepShape(w, id);
    TxStepKeeps(w, id);
    QuietAfter(w, id);
    FailedStep(w, id);
    hide Inv, Quiet, TxStep, Act, Atomic, Enabled, Complete;
  }

  lemma FailedStep(w: World, id: nat)
    requires Inv(w) && id in w.reqs && w.reqs[id].phase.InTx? && w.reqs[id].op.MovesMoney()
    requires Complete(w, id) && w.reqs[id].phase.pc < |Code(w.reqs[id].op)|
    requires id in TxStep(w, id).reqs && !TxStep(w, id).reqs[id].phase.InTx?
    ensures Atomic(w.db, id, w.reqs[id].op).Err?
    ensures TxStep(w, id) == RollBack(w, id, Atomic(w.db, id, w.reqs[id].op).error)
  {
    hide Inv, Act, Atomic, Keys, Code, RollBack, Complete;
    FailsAsAtomic(w, id);
  }

  lemma CommitEnds(w: World, id: nat)
    requires Inv(w) && Quiet(w, id) && id in w.reqs && w.reqs[id].phase.InTx? && w.reqs[id].op.MovesMoney()
    requires w.reqs[id].phase.pc == |Code(w.reqs[id].op)|
    ensures Ended(w, CommitTx(w, id), id)
  {
    CommitIsAtomic(w, id);
    CommitKeeps(w, id);
    QuietAfter(w, id);
    hide Inv, Quiet, Install, Atomic, Release, Code;
  }

  /** A transaction that nobody comes between ends as its simple form: the same tables, or
      the same error and the tables as they were. */
  lemma {:induction false} TransactionAlone(w0: World, ws: seq<World>, acts: seq<Action>, id: nat, w: World)
    returns (more: seq<World>, moreActs: seq<Action>, w': World)
    requires Alone(w0, ws, acts, id, w) && Inv(w) && Quiet(w, id)
    requires id in w.reqs && w.reqs[id].phase.InTx? && w.reqs[id].op.MovesMoney() && Complete(w, id)
    ensures Alone(w0, more, moreActs, id, w') && Ended(w, w', id)
    decreases |Code(w.reqs[id].op)| - w.reqs[id].phase.pc
  {
    assert w.reqs[id].phase.pc <= |Code(w.reqs[id].op)| by {
      assert Fine(id, w.reqs[id], w.db);
    }
    NeverWaits(w, id);
    hide Alone, Inv, Quiet, Atomic, TxStep, CommitTx, Complete, Blocked, Code;
    more, moreActs := Go(w0, ws, acts, id, w);
    if w.reqs[id].phase.pc == |Code(w.reqs[id].op)| {
      w' := CommitTx(w, id);
      CommitEnds(w, id);
    } else {
      var w1 := TxStep(w, id);
      TxStepFrame(w, id);
      TxStepShape(w, id);
      if w1.reqs[id].phase.InTx? {
        TxStepKeeps(w, id);
        QuietAfter(w, id);
        CompleteAfter(w, id);
        more, moreActs, w' := TransactionAlone(w0, more, moreActs, id, w1);
      } else {
        w' := w1;
        RollBackEnds(w, id);
      }
    }
  }

  // ----- requests other than payments

  // The request as one indivisible change.
  function Whole(db: Db, id: nat, op: Op): Result<Db> {
    if op.MovesMoney() then Atomic(db, id, op) else Lifecycle(db, id, op)
  }

  // A request that is not a payment has ended as `done`, having started on the tables of w.
  ghost predicate Finally(w: World, w': World, id: nat, done: Result<Db>) {
    && w'.cache == w.cache && w'.keyLocks == w.keyLocks && w'.published == w.published
    && id in w'.reqs
    && match done
       case Ok(db) => w'.db == db && w'.reqs[id].phase == Finished(Returned(None))
       case Err(e) => w'.db == w.db && w'.reqs[id].phase == Finished(Thrown(e))
  }

  lemma MoneyArrived(w: World, id: nat, op: Op) returns (ws: seq<World>, acts: seq<Action>, w': World)
    requires Inv(w) && w.locks == map[] && op.MovesMoney() && !op.Pay?
    requires id in w.reqs && w.reqs[id] == Req(op, w.now, Arrived)
    ensures Alone(w, ws, acts, id, w') && Finally(w, w', id, Atomic(w.db, id, op))
  {
    hide Inv, Blocked, Code;
    assert Enabled(w, Advance(id)) by {
      NeverWaits(w, id);
    }
    ws, acts := [w], [];
    BeginKeeps(w, id);
    ws, acts := Go(w, ws, acts, id, w);
    w' := Begin(w, id);
    if RefusedAtOnce(op).Some? {
      hide Alone;
    } else {
      assert w' == SetPhase(w, id, InTx(0, map[], NOTHING));
      hide Alone, Atomic, Begin;
      var w1 := w';
      ws, acts, w' := TransactionAlone(w, ws, acts, id, w1);
    }
  }

  lemma LifecycleArrived(w: World, id: nat, op: Op) returns (ws: seq<World>, acts: seq<Action>, w': World)
    requires Inv(w) && w.locks == map[] && !op.MovesMoney()
    requires id in w.reqs && w.reqs[id] == Req(op, w.now, Arrived)
    ensures Alone(w, ws, acts, id, w') && Finally(w, w', id, Lifecycle(w.db, id, op))
  {
    hide Inv, LifecycleWrite, ReadRefusal;
    ws, acts := [w], [];
    ws, acts := Go(w, ws, acts, id, w);
    w' := Begin(w, id);
    if ReadRefusal(op, w.db).None? {
      assert w' == SetPhase(w, id, ReadDone);
      ws, acts := Go(w, ws, acts, id, w');
      w' := WriteLifecycle(w', id);
    }
    hide Alone;
  }

  /** A deposit, withdrawal, transfer or lifecycle request that arrives when nothing is locked
      and then steps alone ends with the tables and the answer of its simple form: it returns
      when that succeeds, and throws that error, with no change, when it fails. */
  lemma RequestAlone(w: World, id: nat, op: Op) returns (ws: seq<World>, acts: seq<Action>)
    requires Inv(w) && w.locks == map[] && !op.Pay? && Fresh(w, id)
    ensures From(w, ws, acts) && forall a | a in acts :: a == Spawn(id, op) || a == Advance(id)
    ensures Finally(w, ws[|acts|], id, Whole(w.db, id, op))
  {
    StepKeeps(w, Spawn(id, op));
    var w1 := Step(w, Spawn(id, op));
    hide Inv, Enabled, Atomic, Lifecycle;
    var rest, more, w';
    if op.MovesMoney() {
      rest, more, w' := MoneyArrived(w1, id, op);
    } else {
      rest, more, w' := LifecycleArrived(w1, id, op);
    }
    hide Step;
    Prepend(w, Spawn(id, op), rest, more);
    ws, acts := [w] + rest, [Spawn(id, op)] + more;
  }

  // ----- the payment call

  function SceneOf(w: World): Scene {
    Scene(w.db, w.cache, w.keyLocks, w.published)
  }

  // What the caller gets.
  ghost predicate Answers(outcome: Outcome, r: Result<nat>) {
    match outcome
    case Returned(response) => response.Some? && r == Ok(response.value)
    case Thrown(e) => r == Err(e)
    case Crashed => false
  }

  // After its transaction: the cached response, the job and the release of the lock.
  lemma AfterTransaction(w0: World, ws: seq<World>, acts: seq<Action>, id: nat, w: World)
    returns (more: seq<World>, moreActs: seq<Action>, w': World)
    requires Alone(w0, ws, acts, id, w) && Inv(w) && Quiet(w, id)
    requires id in w.reqs && w.reqs[id].op.Pay? && (w.reqs[id].phase.Stored? || w.reqs[id].phase.Unwinding?)
    ensures Alone(w0, more, moreActs, id, w') && id in w'.reqs && w'.db == w.db
    ensures w'.keyLocks == w.keyLocks - {w.reqs[id].op.key}
    ensures w.reqs[id].phase.Stored? ==>
              && w'.cache == w.cache[w.reqs[id].op.key := Cell(id, w.now + CACHE_MS)]
              && w'.published == w.published + [id] && w'.reqs[id].phase == Finished(Returned(Some(id)))
    ensures w.reqs[id].phase.Unwinding? ==>
              && w'.cache == w.cache && w'.published == w.published
              && w'.reqs[id].phase == Finished(Thrown(w.reqs[id].phase.cause))
  {
    hide Alone, Inv, Quiet, Blocked, Enabled;
    NoWaitOutside(w, id);
    more, moreActs := Go(w0, ws, acts, id, w);
    w' := Proceed(w, id);
    if w.reqs[id].phase.Stored? {
      var key := w.reqs[id].op.key;
      assert w' == SetPhase(w, id, Cached).(cache := w.cache[key := Cell(id, w.now + CACHE_MS)]);
      NoWaitOutside(w', id);
      more, moreActs := Go(w0, more, moreActs, id, w');
      var w2 := Proceed(w', id);
      assert w2 == SetPhase(w', id, Published).(published := w'.published + [id]);
      NoWaitOutside(w2, id);
      more, moreActs := Go(w0, more, moreActs, id, w2);
      w' := Proceed(w2, id);
    }
  }

  lemma NoWaitOutside(w: World, id: nat)
    requires id in w.reqs && w.reqs[id].op.Pay? && !w.reqs[id].phase.InTx? && w.reqs[id].Live()
    ensures Enabled(w, Advance(id))
  {
  }

  // From its arrival to its answer.
  lemma ArrivedAlone(w: World, id: nat, op: Op) returns (ws: seq<World>, acts: seq<Action>, w': World, r: Result<nat>)
    requires Inv(w) && w.locks == map[] && op.Pay? && id in w.reqs && w.reqs[id] == Req(op, w.now, Arrived)
    ensures Alone(w, ws, acts, id, w') && id in w'.reqs && w'.reqs[id].phase.Finished?
    ensures Answers(w'.reqs[id].phase.outcome, r) && PaymentCalled(SceneOf(w), SceneOf(w'), id, op, w.now, r)
  {
    hide Atomic, Inv, Blocked;
    NoWaitOutside(w, id);
    ws, acts := [w], [];
    BeginKeeps(w, id);
    var w1 := Begin(w, id);
    ws, acts := Go(w, ws, acts, id, w);
    if !w1.reqs[id].phase.Missed? {
      hide Alone;
      w' := w1;
      r := AnswerOf(w'.reqs[id].phase.outcome);
    } else {
      assert w1 == SetPhase(w, id, Missed);
      NoWaitOutside(w1, id);
      TakeKeyLockKeeps(w1, id);
      var w2 := TakeKeyLock(w1, id);
      ws, acts := Go(w, ws, acts, id, w1);
      if w2.reqs[id].phase.Finished? {
        hide Alone;
        w' := w2;
        r := AnswerOf(w'.reqs[id].phase.outcome);
      } else {
        ws, acts, w', r := LockedAlone(w, ws, acts, id, w2);
      }
    }
  }

  function AnswerOf(outcome: Outcome): Result<nat> {
    match outcome
    case Returned(response) => if response.Some? then Ok(response.value) else Err(DatabaseFailed)
    case Thrown(e) => Err(e)
    case Crashed => Err(DatabaseFailed)
  }

  // From the lock to the answer.
  lemma LockedAlone(w0: World, ws: seq<World>, acts: seq<Action>, id: nat, w: World)
    returns (more: seq<World>, moreActs: seq<Action>, w': World, r: Result<nat>)
    requires Alone(w0, ws, acts, id, w) && Inv(w) && w.locks == map[]
    requires id in w.reqs && w.reqs[id].op.Pay? && w.reqs[id].phase == InTx(0, map[], NOTHING)
    ensures Alone(w0, more, moreActs, id, w') && id in w'.reqs && w'.reqs[id].phase.Finished?
    ensures Answers(w'.reqs[id].phase.outcome, r)
    ensures w'.keyLocks == w.keyLocks - {w.reqs[id].op.key}
    ensures match Atomic(w.db, id, w.reqs[id].op)
            case Ok(db) =>
              && r == Ok(id) && w'.db == db && w'.published == w.published + [id]
              && w'.cache == w.cache[w.reqs[id].op.key := Cell(id, w.now + CACHE_MS)]
            case Err(e) => r == Err(e) && w'.db == w.db && w'.published == w.published && w'.cache == w.cache
  {
    hide Alone, Inv, Atomic, Code;
    more, moreActs, w' := TransactionAlone(w0, ws, acts, id, w);
    more, moreActs, w' := AfterTransaction(w0, more, moreActs, id, w');
    r := AnswerOf(w'.reqs[id].phase.outcome);
  }

  /** A payment request that arrives when nothing is locked and then steps alone ends with the
      tables, Redis strings, announcements and answer of the one call that processPayment is. */
  lemma PaymentAlone(w: World, id: nat, op: Op) returns (ws: seq<World>, acts: seq<Action>, r: Result<nat>)
    requires Inv(w) && w.locks == map[] && op.Pay? && Fresh(w, id)
    ensures From(w, ws, acts) && forall a | a in acts :: a == Spawn(id, op) || a == Advance(id)
    ensures var w' := ws[|acts|];
      && id in w'.reqs && w'.reqs[id].phase.Finished? && Answers(w'.reqs[id].phase.outcome, r)
      && PaymentCalled(SceneOf(w), SceneOf(w'), id, op, w.now, r)
  {
    StepKeeps(w, Spawn(id, op));
    var w1 := Step(w, Spawn(id, op));
    assert SceneOf(w1) == SceneOf(w);
    hide Step, Inv, Enabled, PaymentCalled, Answers;
    var rest, more, w', answer := ArrivedAlone(w1, id, op);
    Prepend(w, Spawn(id, op), rest, more);
    ws, acts, r := [w] + rest, [Spawn(id, op)] + more, answer;
  }
}

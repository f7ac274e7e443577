/** What a step can change: one request at a time, and each shared variable only in the
    phases that write it. */
module Frames {
  import opened Money
  import opened Ledger
  import opened Tables
  import opened Program
  import opened Engine
  import opened Locking

  // The request that an action belongs to.
  function Subject(a: Action): Option<nat> {
    match a
    case Spawn(id, _) => Some(id)
    case Advance(id) => Some(id)
    case Abort(id) => Some(id)
    case Crash(id) => Some(id)
    case RedisFail(id, _) => Some(id)
    case _ => None
  }

  // The request has left its database transaction, or its lifecycle write, behind.
  predicate Over(phase: Phase) {
    phase.Stored? || phase.Cached? || phase.Published? || phase.Unwinding? || phase.Finished?
  }

  // How the phase of a request can change in one step of its own.
  predicate Successor(op: Op, before: Phase, after: Phase) {
    match before
    case Arrived => EarlyPhase(op, after)
    case Missed => after.Finished? || after == InTx(0, map[], NOTHING)
    case InTx(pc, snap, _) =>
      || (after.InTx? && after.pc == pc + 1 && pc < |Steps(op)|
          && forall x | x in snap :: x in after.snap && (after.snap[x] == snap[x] || Relocks(op, pc, x)))
      || after.Unwinding? || after.Finished?
      || (after.Stored? && op.Pay?)
    case ReadDone => after.Finished?
    case Stored => after.Cached? || after.Unwinding? || after.Finished?
    case Cached => after.Published? || after.Unwinding? || after.Finished?
    case Published => after.Finished?
    case Unwinding(_) => after.Finished?
    case Finished(_) => false
  }

  function Steps(op: Op): seq<Instr> {
    if op.MovesMoney() then Code(op) else []
  }

  // The step locks a row that is already in the snapshot: never, for distinct wallets.
  predicate Relocks(op: Op, pc: nat, x: nat) {
    pc < |Steps(op)| && Steps(op)[pc] == LockRow(x)
  }

  ghost predicate Succeeds(w: World, w': World, id: nat)
    requires id in w.reqs
  {
    && id in w'.reqs && w'.reqs == w.reqs[id := w'.reqs[id]]
    && w'.reqs[id].op == w.reqs[id].op
    && (w'.reqs[id].since == w.reqs[id].since || w.reqs[id].phase.Missed?)
    && Successor(w.reqs[id].op, w.reqs[id].phase, w'.reqs[id].phase)
  }

  lemma SetPhaseSucceeds(w: World, w': World, id: nat, phase: Phase)
    requires id in w.reqs && w'.reqs == SetPhase(w, id, phase).reqs
    requires Successor(w.reqs[id].op, w.reqs[id].phase, phase)
    ensures Succeeds(w, w', id)
  {
  }

  lemma TxSuccessor(w: World, id: nat)
    requires id in w.reqs && w.reqs[id].phase.InTx? && w.reqs[id].op.MovesMoney()
    requires w.reqs[id].phase.pc < |Code(w.reqs[id].op)|
    ensures Succeeds(w, TxStep(w, id), id)
  {
    TxStepFrame(w, id);
    TxStepShape(w, id);
    TxPhase(w, id);
    hide TxStep, Code, Successor;
  }

  lemma TxPhase(w: World, id: nat)
    requires id in w.reqs && w.reqs[id].phase.InTx? && w.reqs[id].op.MovesMoney()
    requires w.reqs[id].phase.pc < |Code(w.reqs[id].op)|
    ensures Successor(w.reqs[id].op, w.reqs[id].phase, TxStep(w, id).reqs[id].phase)
  {
    hide Act, Keys, Code, Release, EarlyPhase;
  }

  lemma BeginSuccessor(w: World, id: nat)
    requires id in w.reqs && w.reqs[id].phase.Arrived?
    ensures Succeeds(w, Begin(w, id), id)
  {
    BeginIsEarly(w, id);
    hide Begin, EarlyPhase;
    SetPhaseSucceeds(w, Begin(w, id), id, Begin(w, id).reqs[id].phase);
  }

  lemma MissedSuccessor(w: World, id: nat)
    requires id in w.reqs && w.reqs[id].phase.Missed? && w.reqs[id].op.Pay?
    ensures Succeeds(w, TakeKeyLock(w, id), id)
  {
    hide EarlyPhase;
  }

  lemma CommitSuccessor(w: World, id: nat)
    requires id in w.reqs && w.reqs[id].phase.InTx?
    ensures Succeeds(w, CommitTx(w, id), id)
  {
    hide EarlyPhase, Install, Release;
    var phase := if w.reqs[id].op.Pay? then Stored else Finished(Returned(None));
    SetPhaseSucceeds(w, CommitTx(w, id), id, phase);
  }

  lemma LifecycleSuccessor(w: World, id: nat)
    requires id in w.reqs && w.reqs[id].phase.ReadDone? && !w.reqs[id].op.MovesMoney()
    ensures Succeeds(w, WriteLifecycle(w, id), id)
  {
    hide EarlyPhase, LifecycleWrite;
  }

  lemma LateSuccessor(w: World, id: nat)
    requires Enabled(w, Advance(id)) && w.reqs[id].op.Pay?
    requires var p := w.reqs[id].phase; p.Stored? || p.Cached? || p.Published? || p.Unwinding?
    ensures Succeeds(w, Proceed(w, id), id)
  {
    hide EarlyPhase, Blocked;
  }

  lemma ProceedSuccessor(w: World, id: nat)
    requires Inv(w) && Enabled(w, Advance(id))
    ensures Succeeds(w, Proceed(w, id), id)
  {
    assert Shaped(w.reqs[id]) by {
      assert Fine(id, w.reqs[id], w.db);
    }
    hide Inv, Succeeds, TxStep, Begin, CommitTx, TakeKeyLock, WriteLifecycle, Code, Blocked;
    match w.reqs[id].phase
    case Arrived => BeginSuccessor(w, id);
    case Missed => MissedSuccessor(w, id);
    case InTx(pc, _, _) =>
      if pc < |Code(w.reqs[id].op)| {
        TxSuccessor(w, id);
      } else {
        CommitSuccessor(w, id);
      }
    case ReadDone => LifecycleSuccessor(w, id);
    case Stored => LateSuccessor(w, id);
    case Cached => LateSuccessor(w, id);
    case Published => LateSuccessor(w, id);
    case Unwinding(_) => LateSuccessor(w, id);
    case Finished(_) => assert false;
  }

  /** A step changes the phase of its own request only, and along one fixed path. */
  lemma StepSuccessor(w: World, a: Action)
    requires Inv(w) && Enabled(w, a)
    ensures forall j | j in w.reqs && Subject(a) != Some(j) :: j in Step(w, a).reqs && Step(w, a).reqs[j] == w.reqs[j]
    ensures forall j | j in Step(w, a).reqs :: j in w.reqs || (a.Spawn? && j == a.id)
    ensures Subject(a).Some? && !a.Spawn? ==>
              var j := Subject(a).value;
              && j in Step(w, a).reqs && Step(w, a).reqs[j].op == w.reqs[j].op
              && (Step(w, a).reqs[j].since == w.reqs[j].since || w.reqs[j].phase.Missed?)
              && (a.Advance? ==> Successor(w.reqs[j].op, w.reqs[j].phase, Step(w, a).reqs[j].phase))
              && (!a.Advance? ==> Step(w, a).reqs[j].phase.Finished? || Step(w, a).reqs[j].phase.Unwinding?)
    ensures a.Spawn? ==> a.id in Step(w, a).reqs && Step(w, a).reqs[a.id] == Req(a.op, w.now, Arrived)
  {
    hide Inv, Release, Keys, Install, Code, Successor, PaymentStatusStep;
    match a
    case Advance(id) =>
      ProceedSuccessor(w, id);
      hide Proceed, Enabled, Successor;
    case Deliver(p) => PaymentStatusTouches(w, p, true);
    case Verify(p, success) => PaymentStatusTouches(w, p, success);
    case _ => hide Proceed;
  }

  /** A Redis command that is done although its request never hears of it is the one that
      the request's next step gives. */
  lemma CommandOfTheStep(w: World, id: nat)
    requires Enabled(w, Advance(id)) && w.reqs[id].op.Pay?
    requires !w.reqs[id].phase.InTx? && !w.reqs[id].phase.ReadDone?
    ensures var done, w' := RedisCommand(w, id), Proceed(w, id);
      done.cache == w'.cache && done.keyLocks == w'.keyLocks && done.published == w'.published
  {
    if w.reqs[id].phase.Arrived? {
      BeginIsEarly(w, id);
      hide Begin, EarlyPhase, Blocked;
    } else if w.reqs[id].phase.Missed? {
      hide Begin, TxStep, CommitTx, WriteLifecycle, Blocked, ReleaseKey;
    } else {
      hide Begin, TxStep, CommitTx, WriteLifecycle, Blocked, TakeKeyLock;
    }
  }

  /** A request that is over stays over. */
  lemma OverStays(w: World, a: Action, id: nat)
    requires Inv(w) && Enabled(w, a) && id in w.reqs && Over(w.reqs[id].phase)
    ensures id in Step(w, a).reqs && Over(Step(w, a).reqs[id].phase)
    ensures Step(w, a).reqs[id].op == w.reqs[id].op
  {
    hide Step, Inv;
    StepSuccessor(w, a);
  }

  /** A row in a snapshot stays there, unchanged, until the request is over. */
  lemma SnapshotStays(w: World, a: Action, id: nat, x: nat)
    requires Inv(w) && Enabled(w, a) && id in w.reqs && w.reqs[id].phase.InTx? && x in w.reqs[id].phase.snap
    ensures id in Step(w, a).reqs && Step(w, a).reqs[id].op == w.reqs[id].op
    ensures var phase := Step(w, a).reqs[id].phase;
      Over(phase) || (phase.InTx? && x in phase.snap && phase.snap[x] == w.reqs[id].phase.snap[x])
  {
    StepSuccessor(w, a);
    StepKeeps(w, a);
    assert Fine(id, w.reqs[id], w.db);
    hide Step, Play, LockTable, Keys;
    if a == Advance(id) && Relocks(w.reqs[id].op, w.reqs[id].phase.pc, x) {
      NoRelock(w.reqs[id].op, w.reqs[id].phase.pc, x);
    }
  }

  lemma NoRelock(op: Op, pc: nat, x: nat)
    requires op.MovesMoney() && RefusedAtOnce(op).None? && MayHold(op, pc, x)
    ensures !Relocks(op, pc, x)
  {
  }
}

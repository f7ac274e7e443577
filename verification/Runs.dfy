/** Whole runs: the interleaved engine against the requests run one at a time, and what
    the books owe in every state of every run. */
module Runs {
  import opened Money
  import opened Ledger
  import opened Tables
  import opened Program
  import opened Engine
  import opened Locking
  import opened Frames
  import opened Sums
  import opened Books
  import opened Conservation
  import opened Records
  import Funds

  // ----- the log is the committed requests, once each

  ghost predicate Faithful(w: World) {
    && (forall i | 0 <= i < |w.log| && w.log[i].Request? ::
          w.log[i].id in w.reqs && w.reqs[w.log[i].id].op == w.log[i].op && Over(w.reqs[w.log[i].id].phase))
    && (forall i, j | 0 <= i < j < |w.log| && w.log[i].Request? && w.log[j].Request? :: w.log[i].id != w.log[j].id)
  }

  // Rows exist exactly for the requests in the log.
  ghost predicate Traced(w: World) {
    forall id | id in w.reqs && w.reqs[id].op.MovesMoney() ::
      && (id in w.db.txs <==> Request(id, w.reqs[id].op) in w.log)
      && (id in w.db.payments <==> w.reqs[id].op.Pay? && Request(id, w.reqs[id].op) in w.log)
  }

  lemma CommitterIsOpen(w: World, a: Action)
    requires Inv(w) && Enabled(w, a) && Committed(w, a).Some? && Committed(w, a).value.Request?
    ensures a.Advance? && Committed(w, a).value == Request(a.id, w.reqs[a.id].op)
    ensures NotYetWritten(w.reqs[a.id]) && !Over(w.reqs[a.id].phase)
    ensures Over(Step(w, a).reqs[a.id].phase)
  {
    assert Fine(a.id, w.reqs[a.id], w.db);
    hide Inv, LifecycleWrite, Install, Release, Keys;
  }

  lemma FaithfulKeeps(w: World, a: Action)
    requires Inv(w) && Enabled(w, a) && Faithful(w)
    ensures Faithful(Step(w, a))
  {
    var w' := Step(w, a);
    StepCommits(w, a);
    StepSuccessor(w, a);
    if Committed(w, a).Some? && Committed(w, a).value.Request? {
      CommitterIsOpen(w, a);
    }
    hide Step, Inv, Committed, Enabled, Do;
    forall i | 0 <= i < |w.log| && w.log[i].Request?
      ensures w.log[i].id in w'.reqs && w'.reqs[w.log[i].id].op == w.log[i].op && Over(w'.reqs[w.log[i].id].phase)
    {
      OverStays(w, a, w.log[i].id);
    }
  }

  lemma CommittedRows(w: World, a: Action)
    requires Inv(w) && Enabled(w, a) && Committed(w, a).Some?
    ensures var w', c := Step(w, a), Committed(w, a).value;
      forall id: nat ::
        && (id in w'.db.txs <==> id in w.db.txs || (c.Request? && c.op.MovesMoney() && c.id == id))
        && (id in w'.db.payments <==> id in w.db.payments || (c.Request? && c.op.Pay? && c.id == id))
  {
    StepCommits(w, a);
    hide Step, Inv, Committed, Enabled;
    var c := Committed(w, a).value;
    if c.Request? && c.op.MovesMoney() {
      hide Atomic;
      OpPayments(w.db, c.id, c.op, Step(w, a).db);
    }
  }

  lemma TracedKeeps(w: World, a: Action)
    requires Inv(w) && Enabled(w, a) && Faithful(w) && Traced(w)
    ensures Traced(Step(w, a))
  {
    var w' := Step(w, a);
    StepCommits(w, a);
    StepSuccessor(w, a);
    if Committed(w, a).Some? {
      CommittedRows(w, a);
      if Committed(w, a).value.Request? {
        CommitterIsOpen(w, a);
      }
    }
    hide Inv, Committed, Do;
    forall id | id in w'.reqs && w'.reqs[id].op.MovesMoney()
      ensures id in w'.db.txs <==> Request(id, w'.reqs[id].op) in w'.log
      ensures id in w'.db.payments <==> w'.reqs[id].op.Pay? && Request(id, w'.reqs[id].op) in w'.log
    {
      if id !in w.reqs {
        SpawnedIsFresh(w, a, id);
      }
      hide Step, Enabled;
    }
  }

  lemma SpawnedIsFresh(w: World, a: Action, id: nat)
    requires Enabled(w, a) && Faithful(w) && id !in w.reqs && a.Spawn? && a.id == id
    ensures id !in w.db.txs && id !in w.db.payments
    ensures forall op :: Request(id, op) !in w.log
    ensures Step(w, a).db == w.db && Step(w, a).log == w.log
  {
  }

  lemma FreshKeeps(db0: Db, w: World, a: Action)
    requires Inv(w) && Enabled(w, a) && Serial(db0, w) && FreshLog(db0, w.log)
    ensures FreshLog(db0, Step(w, a).log)
  {
    StepCommits(w, a);
    if Committed(w, a).Some? {
      var c := Committed(w, a).value;
      assert OpFresh(w.db, c) by {
        if c.Request? {
          CommitterIsOpen(w, a);
          assert Fine(a.id, w.reqs[a.id], w.db);
        }
      }
      hide Step, Inv, Committed, Enabled, RunLog, OpFresh, Do;
      var log := w.log + [c];
      forall i | 0 <= i < |log| && RunLog(db0, log[..i]).Ok?
        ensures OpFresh(RunLog(db0, log[..i]).value, log[i])
      {
        assert log[..i] == w.log[..i];
        assert w.log[..|w.log|] == w.log;
      }
    }
  }

  ghost predicate Kept(db0: Db, w: World) {
    Inv(w) && Serial(db0, w) && Faithful(w) && Traced(w) && FreshLog(db0, w.log)
  }

  lemma StepKeepsAll(db0: Db, w: World, a: Action)
    requires Kept(db0, w) && Enabled(w, a)
    ensures Kept(db0, Step(w, a))
  {
    hide Step, Inv, Enabled, FreshLog, Faithful, Traced, RunLog, Do;
    StepKeeps(w, a);
    StepCommits(w, a);
    if Committed(w, a).Some? {
      RunLogAppend(db0, w.log, Committed(w, a).value);
    }
    FaithfulKeeps(w, a);
    TracedKeeps(w, a);
    FreshKeeps(db0, w, a);
  }

  lemma {:induction false} RunInvariants(ws: seq<World>, acts: seq<Action>, i: nat)
    requires Run(ws, acts) && i < |ws|
    ensures Kept(ws[0].db, ws[i])
  {
    hide Step, Enabled, Kept;
    if i == 0 {
      InitialFaithful(ws[0]);
    } else {
      assert Next(ws[i - 1], acts[i - 1], ws[i]);
      RunInvariants(ws, acts, i - 1);
      StepKeepsAll(ws[0].db, ws[i - 1], acts[i - 1]);
    }
  }

  lemma InitialFaithful(w: World)
    requires Initial(w)
    ensures Kept(w.db, w)
  {
    InitialInv(w);
  }

  /** Serializability: after any interleaving, with aborts, crashes and status writes mixed
      in, the tables are exactly what the committed requests make of them when each runs
      alone, in commit order; each committed request counts once, and a request that did
      not commit has left no row. */
  lemma Serializability(ws: seq<World>, acts: seq<Action>, i: nat)
    requires Run(ws, acts) && i < |ws|
    ensures RunLog(ws[0].db, ws[i].log) == Ok(ws[i].db)
    ensures Faithful(ws[i]) && Traced(ws[i])
  {
    hide Inv, Faithful, Traced, RunLog, FreshLog;
    RunInvariants(ws, acts, i);
  }

  // What a request other than a payment reports is whether it committed.
  ghost predicate Reported(w: World) {
    forall id | id in w.reqs && !w.reqs[id].op.Pay? ::
      Request(id, w.reqs[id].op) in w.log <==> w.reqs[id].phase == Finished(Returned(None))
  }

  lemma OwnTxReport(w: World, id: nat)
    requires id in w.reqs && w.reqs[id].op.MovesMoney() && !w.reqs[id].op.Pay? && w.reqs[id].phase.InTx?
    requires w.reqs[id].phase.pc < |Code(w.reqs[id].op)|
    ensures id in TxStep(w, id).reqs && TxStep(w, id).reqs[id].phase != Finished(Returned(None))
  {
    TxStepShape(w, id);
    hide TxStep, Code, Release;
  }

  lemma OwnWriteReport(w: World, id: nat)
    requires id in w.reqs && !w.reqs[id].op.MovesMoney()
    ensures id in WriteLifecycle(w, id).reqs
    ensures WriteLifecycle(w, id).reqs[id].phase == Finished(Returned(None))
        <==> LifecycleWrite(w.db, id, w.reqs[id].op).Ok?
  {
    hide LifecycleWrite;
  }

  lemma OwnFailureReport(w: World, a: Action, id: nat)
    requires Enabled(w, a) && Subject(a) == Some(id) && id in w.reqs && !a.Advance? && !w.reqs[id].op.Pay?
    ensures id in Step(w, a).reqs && Step(w, a).reqs[id].phase != Finished(Returned(None))
    ensures Committed(w, a).None?
  {
    hide Release;
  }

  lemma OwnBeginReport(w: World, id: nat)
    requires id in w.reqs && !w.reqs[id].op.Pay?
    ensures id in Begin(w, id).reqs && Begin(w, id).reqs[id].phase != Finished(Returned(None))
  {
    hide RefusedAtOnce, ReadRefusal;
  }

  lemma OwnCommitReport(w: World, id: nat)
    requires id in w.reqs && w.reqs[id].phase.InTx? && !w.reqs[id].op.Pay?
    ensures id in CommitTx(w, id).reqs && CommitTx(w, id).reqs[id].phase == Finished(Returned(None))
  {
    hide Install, Release;
  }

  lemma OwnReport(w: World, a: Action, id: nat)
    requires Inv(w) && Enabled(w, a) && Subject(a) == Some(id) && id in w.reqs
    requires !w.reqs[id].op.Pay?
    ensures id in Step(w, a).reqs
    ensures Step(w, a).reqs[id].phase == Finished(Returned(None)) <==> Committed(w, a).Some?
  {
    assert Shaped(w.reqs[id]) by {
      assert Fine(id, w.reqs[id], w.db);
    }
    hide Inv, RefusedAtOnce, Blocked, LifecycleWrite, Begin, TxStep, CommitTx, WriteLifecycle, Code;
    if !a.Advance? {
      OwnFailureReport(w, a, id);
      hide Step, Committed, Enabled;
    } else {
      match w.reqs[id].phase
      case Arrived => OwnBeginReport(w, id);
      case InTx(pc, _, _) =>
        if pc < |Code(w.reqs[id].op)| {
          OwnTxReport(w, id);
        } else {
          OwnCommitReport(w, id);
        }
      case ReadDone => OwnWriteReport(w, id);
      case _ => assert false;
    }
  }

  lemma ReportedKeeps(w: World, a: Action)
    requires Inv(w) && Enabled(w, a) && Faithful(w) && Reported(w)
    ensures Reported(Step(w, a))
  {
    var w' := Step(w, a);
    StepCommits(w, a);
    StepSuccessor(w, a);
    if Committed(w, a).Some? && Committed(w, a).value.Request? {
      CommitterIsOpen(w, a);
    }
    hide Inv, Do;
    forall id | id in w'.reqs && !w'.reqs[id].op.Pay?
      ensures Request(id, w'.reqs[id].op) in w'.log <==> w'.reqs[id].phase == Finished(Returned(None))
    {
      if id !in w.reqs {
        SpawnedIsFresh(w, a, id);
      } else if Subject(a) == Some(id) {
        OwnReport(w, a, id);
        LiveIsUnlogged(w, a, id);
      }
      hide Step, Enabled, Committed;
    }
  }

  lemma LiveIsUnlogged(w: World, a: Action, id: nat)
    requires Inv(w) && Enabled(w, a) && Subject(a) == Some(id) && id in w.reqs && Reported(w)
    requires !w.reqs[id].op.Pay?
    ensures Request(id, w.reqs[id].op) !in w.log
    ensures Committed(w, a).Some? ==> Committed(w, a) == Some(Request(id, w.reqs[id].op))
  {
    hide Inv;
  }

  lemma {:induction false} RunReported(ws: seq<World>, acts: seq<Action>, i: nat)
    requires Run(ws, acts) && i < |ws|
    ensures Reported(ws[i])
  {
    hide Step, Enabled, Inv, Faithful, Traced, Serial, FreshLog;
    if i > 0 {
      RunReported(ws, acts, i - 1);
      RunInvariants(ws, acts, i - 1);
      assert Next(ws[i - 1], acts[i - 1], ws[i]);
      ReportedKeeps(ws[i - 1], acts[i - 1]);
    }
  }

  /** A request other than a payment has returned if and only if its change is committed: no
      success is claimed for nothing, and nothing is changed by a request that threw. */
  lemma ReturnedIffCommitted(ws: seq<World>, acts: seq<Action>, i: nat, id: nat)
    requires Run(ws, acts) && i < |ws| && id in ws[i].reqs && !ws[i].reqs[id].op.Pay?
    ensures Request(id, ws[i].reqs[id].op) in ws[i].log <==> ws[i].reqs[id].phase == Finished(Returned(None))
  {
    RunReported(ws, acts, i);
    hide Run;
  }

  // ----- the books in every state of a run

  // The transaction history of every wallet nets to the replay of its ledger.
  ghost predicate SharesReplayed(db: Db) {
    forall w: nat :: Sum(ShareOf(db, w)) == Replay(db.ledger, w)
  }

  // All that the results below ask of the initial tables, each its own part.
  ghost predicate InOrder(db: Db) {
    && Balanced(db) && NonNegative(db) && AllChained(db) && Recorded(db)
    && Conserved(db, 0) && SharesReplayed(db)
  }

  lemma EmptyTablesAreInOrder()
    ensures InOrder(Db(map[], [], map[], map[]))
  {
    var db := Db(map[], [], map[], map[]);
    assert BalanceOf(db) == map[] && FlowOf(db) == map[];
    forall w: nat
      ensures Sum(ShareOf(db, w)) == Replay(db.ledger, w)
    {
      assert ShareOf(db, w) == map[];
    }
  }

  /** In every state of every run, whatever the amounts: each transaction row has exactly its
      entries, and idempotency keys and wallet owners are unique. */
  lemma RecordsInEveryState(ws: seq<World>, acts: seq<Action>, i: nat)
    requires Run(ws, acts) && i < |ws| && Recorded(ws[0].db)
    ensures Recorded(ws[i].db)
  {
    hide Inv, Recorded, RunLog, FreshLog, Faithful, Traced;
    Serializability(ws, acts, i);
    RunInvariants(ws, acts, i);
    BooksAreRecorded(ws[0].db, ws[i].log, ws[i].db);
  }

  /** In every state of every run, whatever the amounts, a wallet's transaction history nets
      to the replay of its ledger. */
  lemma HistoryInEveryState(ws: seq<World>, acts: seq<Action>, i: nat)
    requires Run(ws, acts) && i < |ws| && SharesReplayed(ws[0].db)
    ensures SharesReplayed(ws[i].db)
  {
    hide Inv, RunLog, FreshLog, Faithful, Traced, Replay, Sum;
    Serializability(ws, acts, i);
    RunInvariants(ws, acts, i);
    forall w: nat
      ensures Sum(ShareOf(ws[i].db, w)) == Replay(ws[i].db.ledger, w)
    {
      HistoryIsLedger(ws[0].db, ws[i].log, ws[i].db, w);
    }
  }

  /** All or nothing: a money request either is in the log, and then its transaction row is
      SUCCESS with exactly the entries of its type, and for a payment the payment row, or it
      has left no row of any kind.  A deposit, withdrawal or transfer that returned is of
      the first kind, one that threw or crashed of the second. */
  lemma AllOrNothing(ws: seq<World>, acts: seq<Action>, i: nat, id: nat)
    requires Run(ws, acts) && i < |ws| && Recorded(ws[0].db)
    requires id in ws[i].reqs && ws[i].reqs[id].op.MovesMoney()
    ensures var op, db := ws[i].reqs[id].op, ws[i].db;
      if Request(id, op) in ws[i].log
      then id in db.txs && Booked(id, db.txs[id], Written(db.ledger, id)) && (op.Pay? ==> PaidFor(db, id))
      else id !in db.txs && id !in db.payments && forall e | e in db.ledger :: e.txId != id
    ensures !ws[i].reqs[id].op.Pay? ==>
              (Request(id, ws[i].reqs[id].op) in ws[i].log <==> ws[i].reqs[id].phase == Finished(Returned(None)))
  {
    RecordsInEveryState(ws, acts, i);
    hide Inv, Faithful, FreshLog, Run, Booked, Written;
    RunInvariants(ws, acts, i);
    RunReported(ws, acts, i);
  }

  /** In every state of every run, for arbitrary amounts and balances of any size and sign:
      each balance is the last recorded running balance, its distance from the replay is
      the drift of the wallet's half-cent postings, and the balances add up to the net flow
      plus all that drift. */
  lemma DriftInEveryState(ws: seq<World>, acts: seq<Action>, i: nat, w: nat)
    requires Run(ws, acts) && i < |ws| && Balanced(ws[0].db) && w in ws[i].db.wallets
    ensures RunLog(ws[0].db, ws[i].log) == Ok(ws[i].db)
    ensures ws[i].db.wallets[w].balance == LastAfter(ws[i].db.ledger, w)
    ensures ws[i].db.wallets[w].balance
         == Replay(ws[i].db.ledger, w) + Drift(ws[0].db, ws[i].log, w)
    ensures Conserved(ws[0].db, 0) ==> Conserved(ws[i].db, AllDrift(ws[0].db, ws[i].log))
  {
    hide Inv, RunLog, FreshLog, Balanced, Faithful, Traced, Replay, LastAfter, Drift, AllDrift, Conserved;
    Serializability(ws, acts, i);
    RunInvariants(ws, acts, i);
    ExactDrift(ws[0].db, ws[i].log, ws[i].db, w);
    if Conserved(ws[0].db, 0) {
      MoneyIsConserved(ws[0].db, ws[i].log, ws[i].db);
    }
  }

  /** In every state of every run whose debits were in numeric range no balance is negative,
      and the drift is one cent for each half-cent debit. */
  lemma BalancesInEveryState(ws: seq<World>, acts: seq<Action>, i: nat, w: nat)
    requires Run(ws, acts) && i < |ws| && NonNegative(ws[0].db) && InRangeLog(ws[0].db, ws[i].log)
    requires w in ws[i].db.wallets
    ensures 0 <= ws[i].db.wallets[w].balance
    ensures Balanced(ws[0].db) ==>
              ws[i].db.wallets[w].balance == Replay(ws[i].db.ledger, w) + Ties(ws[i].log, w)
    ensures Conserved(ws[0].db, 0) ==> Conserved(ws[i].db, AllTies(ws[i].log))
  {
    hide Inv, RunLog, FreshLog, InRangeLog, Balanced, Faithful, Traced, Replay, LastAfter;
    hide Drift, Ties, AllDrift, AllTies, Conserved;
    Serializability(ws, acts, i);
    RunInvariants(ws, acts, i);
    NeverOverdrawn(ws[0].db, ws[i].log, ws[i].db);
    if Balanced(ws[0].db) {
      ExactDrift(ws[0].db, ws[i].log, ws[i].db, w);
    }
    if Conserved(ws[0].db, 0) {
      MoneyIsConserved(ws[0].db, ws[i].log, ws[i].db);
      AllDriftIsTies(ws[0].db, ws[i].log);
    }
  }

  /** For whole-cent amounts there is no drift at all, whatever the funds check let through:
      balance, replay of the ledger, last running balance and transaction history are one
      number, the running balances form an unbroken chain, and balances add up to deposits
      minus withdrawals. */
  lemma WholeCentsInEveryState(ws: seq<World>, acts: seq<Action>, i: nat, w: nat)
    requires Run(ws, acts) && i < |ws| && WholeCentLog(ws[i].log) && w in ws[i].db.wallets
    requires Balanced(ws[0].db) && AllChained(ws[0].db) && Conserved(ws[0].db, 0) && SharesReplayed(ws[0].db)
    ensures ws[i].db.wallets[w].balance == Replay(ws[i].db.ledger, w) == LastAfter(ws[i].db.ledger, w)
    ensures ws[i].db.wallets[w].balance == Sum(ShareOf(ws[i].db, w))
    ensures Chained(ws[i].db.ledger, w)
    ensures Sum(BalanceOf(ws[i].db)) == Sum(FlowOf(ws[i].db))
  {
    hide Inv, RunLog, WholeCentLog, Balanced, Chained, Replay, LastAfter, Drift, AllDrift, Sum;
    DriftInEveryState(ws, acts, i, w);
    WholeCentsNeverDrift(ws[0].db, ws[i].log, w);
    NoDriftAtAll(ws[0].db, ws[i].log);
    HistoryInEveryState(ws, acts, i);
    LedgerIsChained(ws[0].db, ws[i].log, ws[i].db);
  }

  // ----- the numeric range, as a condition on requests and on states

  /** If what is there at the start and all committed deposits and payments stay within 2^46
      units together, then every debit of the run is decided in range. */
  lemma DepositsBoundTheRange(ws: seq<World>, acts: seq<Action>, i: nat)
    requires Run(ws, acts) && i < |ws| && NonNegative(ws[0].db) && PrintedLog(ws[i].log)
    requires Sum(BalanceOf(ws[0].db)) + AllIncoming(ws[i].log) <= Funds.WHOLE_AMOUNT_CENTS
    ensures InRangeLog(ws[0].db, ws[i].log) && NonNegative(ws[i].db)
  {
    hide Inv, RunLog, NonNegative, PrintedLog, Faithful, Traced, AllIncoming, Sum;
    Serializability(ws, acts, i);
    DepositsKeepInRange(ws[0].db, ws[i].log, ws[i].db);
    NeverOverdrawn(ws[0].db, ws[i].log, ws[i].db);
  }

  ghost predicate UpTo(db: Db, limit: int) {
    forall w | w in db.wallets :: db.wallets[w].balance <= limit
  }

  ghost predicate LimitSuits(log: seq<Commit>, limit: int) {
    || limit <= Funds.ANY_AMOUNT_CENTS + 1
    || (limit <= Funds.WHOLE_AMOUNT_CENTS && PrintedLog(log))
  }

  /** A run decides every debit in range if its balances stay up to 2^46 units, or for
      amounts that are arbitrary reals up to 2^45 units and one cent. */
  lemma {:induction false} SmallBalancesAreInRange(ws: seq<World>, acts: seq<Action>, i: nat, limit: int)
    requires Run(ws, acts) && i < |ws| && forall j | 0 <= j < i :: UpTo(ws[j].db, limit)
    requires LimitSuits(ws[i].log, limit)
    ensures InRangeLog(ws[0].db, ws[i].log)
  {
    hide Step, Inv, Enabled, UpTo, Faithful, RunLog, Funds.Printed;
    if i > 0 {
      var w, a := ws[i - 1], acts[i - 1];
      assert Next(w, a, ws[i]) && UpTo(w.db, limit);
      RunInvariants(ws, acts, i - 1);
      StepCommits(w, a);
      SmallBalancesAreInRange(ws, acts, i - 1, limit);
      if Committed(w, a).Some? {
        var c := Committed(w, a).value;
        assert c in ws[i].log;
        if c.Request? {
          UpToIsInRange(w.db, c.op, limit);
        }
        ExtendRange(ws[0].db, w.log, c, w.db);
      }
    }
  }

  lemma UpToIsInRange(db: Db, op: Op, limit: int)
    requires UpTo(db, limit)
    requires || limit <= Funds.ANY_AMOUNT_CENTS + 1
             || (limit <= Funds.WHOLE_AMOUNT_CENTS && (op.MovesMoney() ==> Funds.Printed(op.amount)))
    ensures OpInRange(db, op)
  {
    hide Funds.Printed;
  }

  // ----- activity at posting

  /** Past its check, a transaction's wallets are ACTIVE in the committed table, and their
      rows are locked by it, until it ends. */
  lemma PostingIsActive(w: World, id: nat, x: nat)
    requires Inv(w) && id in w.reqs && w.reqs[id].phase.InTx? && w.reqs[id].op.Touches(x)
    requires Locks(w.reqs[id].op) < w.reqs[id].phase.pc
    ensures x in w.reqs[id].phase.snap && x in w.db.wallets && w.db.wallets[x] == w.reqs[id].phase.snap[x]
    ensures w.db.wallets[x].status == Active
    ensures Row(x) in w.locks && w.locks[Row(x)] == id
  {
    hide Play, Funds.Refused, Refusal;
    assert Fine(id, w.reqs[id], w.db);
    PlayChecked(id, w.reqs[id].op, w.reqs[id].phase.snap, Keys(w.db), w.reqs[id].phase.pc);
    NotRefusedIsActive(w.reqs[id].op, w.reqs[id].phase.snap, x);
    assert Holds(w.reqs[id], Row(x));
  }

  lemma {:induction false} HeldBetween(ws: seq<World>, acts: seq<Action>, i: nat, j: nat, id: nat, x: nat)
    requires Run(ws, acts) && i <= j < |ws|
    requires id in ws[i].reqs && ws[i].reqs[id].phase.InTx? && x in ws[i].reqs[id].phase.snap
    ensures id in ws[j].reqs && ws[j].reqs[id].op == ws[i].reqs[id].op
    ensures Over(ws[j].reqs[id].phase)
         || (ws[j].reqs[id].phase.InTx? && x in ws[j].reqs[id].phase.snap
             && ws[j].reqs[id].phase.snap[x] == ws[i].reqs[id].phase.snap[x])
    decreases j - i
  {
    hide Step, Inv, Enabled;
    if i < j {
      var w, a := ws[j - 1], acts[j - 1];
      assert Next(w, a, ws[j]);
      RunInvariants(ws, acts, j - 1);
      HeldBetween(ws, acts, i, j - 1, id, x);
      if Over(w.reqs[id].phase) {
        OverStays(w, a, id);
      } else {
        SnapshotStays(w, a, id, x);
      }
    }
  }

  lemma {:induction false} OverForGood(ws: seq<World>, acts: seq<Action>, i: nat, j: nat, id: nat)
    requires Run(ws, acts) && i <= j < |ws| && id in ws[i].reqs && Over(ws[i].reqs[id].phase)
    ensures id in ws[j].reqs && Over(ws[j].reqs[id].phase)
    decreases j - i
  {
    hide Step, Inv, Enabled;
    if i < j {
      OverForGood(ws, acts, i, j - 1, id);
      RunInvariants(ws, acts, j - 1);
      assert Next(ws[j - 1], acts[j - 1], ws[j]);
      OverStays(ws[j - 1], acts[j - 1], id);
    }
  }

  /** Activity at posting: when a transaction commits a posting to a wallet, the wallet's
      committed row was ACTIVE and did not change at all from the moment its lock was taken,
      whatever freeze, unfreeze and close requests were in flight. */
  lemma ActiveFromLockToCommit(ws: seq<World>, acts: seq<Action>, i: nat, j: nat, k: nat, id: nat, x: nat)
    requires Run(ws, acts) && i <= j <= k < |ws|
    requires id in ws[i].reqs && ws[i].reqs[id].phase.InTx? && x in ws[i].reqs[id].phase.snap
    requires id in ws[k].reqs && ws[k].reqs[id].phase.InTx? && ws[k].reqs[id].op.Touches(x)
    requires Locks(ws[k].reqs[id].op) < ws[k].reqs[id].phase.pc
    ensures x in ws[j].db.wallets && x in ws[k].db.wallets && ws[j].db.wallets[x] == ws[k].db.wallets[x]
    ensures ws[j].db.wallets[x].status == Active
  {
    hide Step, Enabled, Locks;
    HeldBetween(ws, acts, i, j, id, x);
    if Over(ws[j].reqs[id].phase) {
      OverForGood(ws, acts, j, k, id);
    } else {
      HeldBetween(ws, acts, j, k, id, x);
      RunInvariants(ws, acts, j);
      RunInvariants(ws, acts, k);
      assert Fine(id, ws[j].reqs[id], ws[j].db);
      PostingIsActive(ws[k], id, x);
    }
  }

  // An entry that a step appends is one of its transaction's own.
  lemma EntryCommitted(w: World, a: Action, n: nat)
    requires Inv(w) && Enabled(w, a) && |w.db.ledger| <= n < |Step(w, a).db.ledger|
    ensures a.Advance? && a.id in w.reqs && w.reqs[a.id].phase.InTx? && w.reqs[a.id].op.MovesMoney()
    ensures w.reqs[a.id].phase.pc == |Code(w.reqs[a.id].op)|
    ensures Step(w, a).db.ledger[n].txId == a.id && w.reqs[a.id].op.Touches(Step(w, a).db.ledger[n].walletId)
  {
    StepCommits(w, a);
    assert Committed(w, a).Some?;
    if a.Advance? && w.reqs[a.id].phase.InTx? {
      CommittedEntries(w, a.id);
    } else {
      QuietLedger(w, a);
      hide Inv, Step, Enabled, Committed, Do;
    }
  }

  lemma CommittedEntries(w: World, id: nat)
    requires Inv(w) && Enabled(w, Advance(id)) && w.reqs[id].phase.InTx? && Committed(w, Advance(id)).Some?
    ensures w.reqs[id].op.MovesMoney() && w.reqs[id].phase.pc == |Code(w.reqs[id].op)|
    ensures var ledger := Step(w, Advance(id)).db.ledger;
      forall n | |w.db.ledger| <= n < |ledger| :: ledger[n].txId == id && w.reqs[id].op.Touches(ledger[n].walletId)
  {
    var req := w.reqs[id];
    assert Fine(id, req, w.db);
    hide Inv, Play, Code;
    PlayWrites(id, req.op, req.phase.snap, Keys(w.db), req.phase.pc);
  }

  lemma QuietLedger(w: World, a: Action)
    requires Inv(w) && Enabled(w, a) && Committed(w, a).Some? && !(a.Advance? && w.reqs[a.id].phase.InTx?)
    requires Do(w.db, Committed(w, a).value) == Ok(Step(w, a).db)
    ensures Step(w, a).db.ledger == w.db.ledger
  {
    hide Step, Inv;
  }

  // When the row of x came into the snapshot of a transaction.
  lemma {:induction false} LockedAt(ws: seq<World>, acts: seq<Action>, k: nat, id: nat, x: nat) returns (i: nat)
    requires Run(ws, acts) && k < |ws|
    requires id in ws[k].reqs && ws[k].reqs[id].phase.InTx? && x in ws[k].reqs[id].phase.snap
    ensures 0 < i <= k && acts[i - 1] == Advance(id)
    ensures id in ws[i].reqs && ws[i].reqs[id].phase.InTx? && x in ws[i].reqs[id].phase.snap
    ensures id in ws[i - 1].reqs && (ws[i - 1].reqs[id].phase.InTx? ==> x !in ws[i - 1].reqs[id].phase.snap)
  {
    hide Step, Inv, Enabled;
    var w, a := ws[k - 1], acts[k - 1];
    assert Next(w, a, ws[k]);
    RunInvariants(ws, acts, k - 1);
    StepSuccessor(w, a);
    if id in w.reqs && w.reqs[id].phase.InTx? && x in w.reqs[id].phase.snap {
      i := LockedAt(ws, acts, k - 1, id, x);
    } else {
      i := k;
    }
  }

  /** Activity at posting: every entry that a step appends was posted to a wallet whose
      committed row, from the step that locked it to the commit, was ACTIVE, did not change
      at all, and was locked by the posting transaction, whatever freeze, unfreeze and close
      requests were in flight. */
  lemma PostedWhileActive(ws: seq<World>, acts: seq<Action>, k: nat, n: nat) returns (i: nat)
    requires Run(ws, acts) && k < |acts| && |ws[k].db.ledger| <= n < |ws[k + 1].db.ledger|
    ensures var e := ws[k + 1].db.ledger[n];
      && 0 < i <= k && acts[i - 1] == acts[k] == Advance(e.txId) && e.txId in ws[i - 1].reqs
      && (ws[i - 1].reqs[e.txId].phase.InTx? ==> e.walletId !in ws[i - 1].reqs[e.txId].phase.snap)
      && forall j | i <= j <= k ::
              && e.walletId in ws[j].db.wallets && ws[j].db.wallets[e.walletId].status == Active
              && e.walletId in ws[k].db.wallets && ws[j].db.wallets[e.walletId] == ws[k].db.wallets[e.walletId]
              && Row(e.walletId) in ws[j].locks && ws[j].locks[Row(e.walletId)] == e.txId
  {
    hide Step, Enabled, Inv, Code, Locks;
    var id, x := ws[k + 1].db.ledger[n].txId, ws[k + 1].db.ledger[n].walletId;
    RunInvariants(ws, acts, k);
    assert Next(ws[k], acts[k], ws[k + 1]);
    EntryCommitted(ws[k], acts[k], n);
    CheckedByThen(ws[k], id);
    PostingIsActive(ws[k], id, x);
    i := LockedAt(ws, acts, k, id, x);
    forall j | i <= j <= k
      ensures x in ws[j].db.wallets && ws[j].db.wallets[x].status == Active
      ensures ws[j].db.wallets[x] == ws[k].db.wallets[x]
      ensures Row(x) in ws[j].locks && ws[j].locks[Row(x)] == id
    {
      ActiveFromLockToCommit(ws, acts, i, j, k, id, x);
      LockedBetween(ws, acts, i, j, k, id, x);
    }
  }

  lemma CheckedByThen(w: World, id: nat)
    requires id in w.reqs && w.reqs[id].phase.InTx? && w.reqs[id].op.MovesMoney()
    requires w.reqs[id].phase.pc == |Code(w.reqs[id].op)|
    ensures Locks(w.reqs[id].op) < w.reqs[id].phase.pc
  {
  }

  lemma LockedBetween(ws: seq<World>, acts: seq<Action>, i: nat, j: nat, k: nat, id: nat, x: nat)
    requires Run(ws, acts) && i <= j <= k < |ws|
    requires id in ws[i].reqs && ws[i].reqs[id].phase.InTx? && x in ws[i].reqs[id].phase.snap
    requires id in ws[k].reqs && ws[k].reqs[id].phase.InTx?
    ensures Row(x) in ws[j].locks && ws[j].locks[Row(x)] == id
  {
    hide Step, Enabled;
    HeldBetween(ws, acts, i, j, id, x);
    if Over(ws[j].reqs[id].phase) {
      OverForGood(ws, acts, j, k, id);
    } else {
      RunInvariants(ws, acts, j);
      assert Holds(ws[j].reqs[id], Row(x));
    }
  }
}

/** Freeze, unfreeze and close are an unlocked read followed by a blind write.  What that
    means for a closed wallet. */
module Lifecycle {
  import opened Money
  import opened Ledger
  import opened Tables
  import opened Program
  import opened Engine
  import opened Locking
  import opened Frames
  import opened Books
  import opened Runs
  import opened KeyLock

  predicate IsClosed(db: Db, x: nat) {
    x in db.wallets && db.wallets[x].status == Closed
  }

  // A freeze or unfreeze of x between its read and its write.
  predicate Pending(req: Req, x: nat) {
    req.phase.ReadDone? && (req.op == Freeze(x) || req.op == Unfreeze(x))
  }

  // Closed, and nobody is about to overwrite that.
  ghost predicate Sealed(w: World, x: nat) {
    IsClosed(w.db, x) && forall id | id in w.reqs :: !Pending(w.reqs[id], x)
  }

  // ----- what a commit does to a wallet it does not touch

  lemma PostLeavesOthers(db: Db, id: nat, w: nat, kind: Kind, amount: real, after: Db, x: nat)
    requires w in db.wallets && Post(db, id, w, kind, amount) == Ok(after) && x != w
    ensures Of(after.ledger, x) == Of(db.ledger, x)
    ensures x in db.wallets ==> x in after.wallets && after.wallets[x] == db.wallets[x]
  {
    hide After, Cents, Fits, Of;
    var e := after.ledger[|db.ledger|];
    assert after.ledger == db.ledger + [e];
    Append(db.ledger, e, x);
  }

  lemma MoneyElsewhere(db: Db, id: nat, op: Op, after: Db, x: nat)
    requires op.MovesMoney() && Atomic(db, id, op) == Ok(after)
    requires x in db.wallets && db.wallets[x].status != Active
    ensures x in after.wallets && after.wallets[x] == db.wallets[x]
    ensures Of(after.ledger, x) == Of(db.ledger, x)
  {
    var d0, d1, d2 := AtomicStages(db, id, op, after);
    hide Atomic, Post, Of, Funds.Refused;
    assert !op.Touches(x);
    if op.Debited().Some? {
      PostLeavesOthers(d0, id, op.Debited().value, Debit, op.amount, d1, x);
    }
    if op.Credited().Some? {
      PostLeavesOthers(d1, id, op.Credited().value, Credit, op.amount, d2, x);
    }
  }

  // The only change a commit can make to a closed wallet is a pending status write.
  lemma CommitToClosed(w: World, a: Action, x: nat)
    requires Inv(w) && Enabled(w, a) && IsClosed(w.db, x)
    ensures x in Step(w, a).db.wallets && Of(Step(w, a).db.ledger, x) == Of(w.db.ledger, x)
    ensures Step(w, a).db.wallets[x] == w.db.wallets[x]
         || (a.Advance? && Pending(w.reqs[a.id], x)
             && Step(w, a).db.wallets[x] == w.db.wallets[x].(status := NewStatus(w.reqs[a.id].op)))
  {
    StepCommits(w, a);
    if Committed(w, a).Some? && Committed(w, a).value.Request? {
      CommitterIsOpen(w, a);
      var op := w.reqs[a.id].op;
      var after := Step(w, a).db;
      if op.MovesMoney() {
        hide Step, Inv, Of, Atomic;
        MoneyElsewhere(w.db, a.id, op, after, x);
      } else {
        WriterHasRead(w, a);
        hide Step, Inv, Of, HasWallet, Enabled;
      }
    } else {
      hide Step, Inv, Of, Enabled, Committed;
    }
  }

  lemma WriterHasRead(w: World, a: Action)
    requires Inv(w) && Enabled(w, a) && Committed(w, a).Some? && Committed(w, a).value.Request?
    requires a.Advance? && !w.reqs[a.id].op.MovesMoney()
    ensures w.reqs[a.id].phase.ReadDone?
  {
    assert Fine(a.id, w.reqs[a.id], w.db);
  }

  // ----- pending writes

  // A lifecycle request becomes pending only by a read that finds the wallet not closed.
  lemma BecomesPending(w: World, a: Action, id: nat, x: nat)
    requires Inv(w) && Enabled(w, a) && id in Step(w, a).reqs && Pending(Step(w, a).reqs[id], x)
    ensures id in w.reqs && w.reqs[id].op == Step(w, a).reqs[id].op
    ensures Pending(w.reqs[id], x)
         || (a == Advance(id) && w.reqs[id].phase.Arrived? && x in w.db.wallets && !IsClosed(w.db, x))
  {
    StepSuccessor(w, a);
    if a == Advance(id) {
      if w.reqs[id].phase.Arrived? {
        hide Inv, Successor;
      } else {
        hide Step, Inv;
      }
    } else if Subject(a) == Some(id) {
      hide Inv, Proceed;
    } else {
      hide Step, Inv;
    }
  }

  lemma SealedStays(w: World, a: Action, x: nat)
    requires Inv(w) && Enabled(w, a) && Sealed(w, x)
    ensures Sealed(Step(w, a), x)
    ensures Step(w, a).db.wallets[x] == w.db.wallets[x] && Of(Step(w, a).db.ledger, x) == Of(w.db.ledger, x)
  {
    hide Step, Inv, Of, Blocked;
    CommitToClosed(w, a, x);
    forall id | id in Step(w, a).reqs
      ensures !Pending(Step(w, a).reqs[id], x)
    {
      if Pending(Step(w, a).reqs[id], x) {
        BecomesPending(w, a, id, x);
      }
    }
  }

  /** Once a closed wallet has no freeze or unfreeze between its read and its write, it
      stays closed for ever, and its balance and its ledger never change again. */
  lemma {:induction false} SealedForGood(ws: seq<World>, acts: seq<Action>, i: nat, j: nat, x: nat)
    requires Run(ws, acts) && i <= j < |ws| && Sealed(ws[i], x)
    ensures Sealed(ws[j], x)
    ensures ws[j].db.wallets[x] == ws[i].db.wallets[x] && Of(ws[j].db.ledger, x) == Of(ws[i].db.ledger, x)
    decreases j - i
  {
    hide Step, Inv, Enabled, Of;
    if i < j {
      SealedForGood(ws, acts, i, j - 1, x);
      RunInvariants(ws, acts, j - 1);
      assert Next(ws[j - 1], acts[j - 1], ws[j]);
      SealedStays(ws[j - 1], acts[j - 1], x);
    }
  }

  lemma {:induction false} PendingSince(ws: seq<World>, acts: seq<Action>, i: nat, k: nat, id: nat, x: nat)
    requires Run(ws, acts) && i <= k < |ws| && forall j | i <= j < k :: IsClosed(ws[j].db, x)
    requires id in ws[k].reqs && Pending(ws[k].reqs[id], x)
    ensures id in ws[i].reqs && Pending(ws[i].reqs[id], x)
    decreases k - i
  {
    hide Step, Inv, Enabled, IsClosed;
    if i < k {
      RunInvariants(ws, acts, k - 1);
      assert Next(ws[k - 1], acts[k - 1], ws[k]);
      assert IsClosed(ws[k - 1].db, x);
      BecomesPending(ws[k - 1], acts[k - 1], id, x);
      PendingSince(ws, acts, i, k - 1, id, x);
    }
  }

  /** Draining: if a wallet is closed from state i to state k, and the freezes and unfreezes
      that were between read and write at i have ended by k, the wallet is sealed. */
  lemma DrainedIsSealed(ws: seq<World>, acts: seq<Action>, i: nat, k: nat, x: nat)
    requires Run(ws, acts) && i <= k < |ws| && forall j | i <= j <= k :: IsClosed(ws[j].db, x)
    requires forall id | id in ws[i].reqs && Pending(ws[i].reqs[id], x) ::
               id in ws[k].reqs && !Pending(ws[k].reqs[id], x)
    ensures Sealed(ws[k], x)
  {
    hide Run, IsClosed;
    forall id | id in ws[k].reqs
      ensures !Pending(ws[k].reqs[id], x)
    {
      if Pending(ws[k].reqs[id], x) {
        PendingSince(ws, acts, i, k, id, x);
      }
    }
  }

  lemma {:induction false} PendingHasRead(ws: seq<World>, acts: seq<Action>, k: nat, id: nat, x: nat) returns (j: nat)
    requires Run(ws, acts) && k < |ws| && id in ws[k].reqs && Pending(ws[k].reqs[id], x)
    ensures j < k && acts[j] == Advance(id) && id in ws[j].reqs && ws[j].reqs[id].phase.Arrived?
    ensures x in ws[j].db.wallets && !IsClosed(ws[j].db, x)
  {
    hide Step, Inv, Enabled, IsClosed;
    RunInvariants(ws, acts, k - 1);
    assert Next(ws[k - 1], acts[k - 1], ws[k]);
    BecomesPending(ws[k - 1], acts[k - 1], id, x);
    if Pending(ws[k - 1].reqs[id], x) {
      j := PendingHasRead(ws, acts, k - 1, id, x);
    } else {
      j := k - 1;
    }
  }

  /** A step that takes a wallet out of CLOSED is the write half of a freeze or unfreeze
      whose read half saw the wallet before it was closed. */
  lemma ReopenedByStaleRead(ws: seq<World>, acts: seq<Action>, k: nat, x: nat) returns (j: nat)
    requires Run(ws, acts) && k < |acts| && IsClosed(ws[k].db, x) && !IsClosed(ws[k + 1].db, x)
    ensures acts[k].Advance? && acts[k].id in ws[k].reqs && Pending(ws[k].reqs[acts[k].id], x)
    ensures j < k && acts[j] == acts[k] && acts[k].id in ws[j].reqs && ws[j].reqs[acts[k].id].phase.Arrived?
    ensures x in ws[j].db.wallets && !IsClosed(ws[j].db, x)
  {
    hide Step, Inv, Of;
    RunInvariants(ws, acts, k);
    assert Next(ws[k], acts[k], ws[k + 1]);
    CommitToClosed(ws[k], acts[k], x);
    j := PendingHasRead(ws, acts, k, acts[k].id, x);
  }

  // ----- when closing is final

  // Some continuation takes x out of CLOSED.
  ghost predicate CanReopen(w: World, x: nat) {
    exists ws: seq<World>, acts: seq<Action> :: From(w, ws, acts) && !IsClosed(ws[|acts|].db, x)
  }

  lemma {:induction false} SealedFrom(w: World, ws: seq<World>, acts: seq<Action>, x: nat, i: nat)
    requires Inv(w) && Sealed(w, x) && From(w, ws, acts) && i < |ws|
    ensures Inv(ws[i]) && Sealed(ws[i], x)
  {
    hide Step, Inv, Enabled;
    if i > 0 {
      SealedFrom(w, ws, acts, x, i - 1);
      assert Next(ws[i - 1], acts[i - 1], ws[i]);
      StepKeeps(ws[i - 1], acts[i - 1]);
      SealedStays(ws[i - 1], acts[i - 1], x);
    }
  }

  lemma PendingReopens(w: World, id: nat, x: nat)
    requires Inv(w) && IsClosed(w.db, x) && id in w.reqs && Pending(w.reqs[id], x) && Row(x) !in w.locks
    ensures Enabled(w, Advance(id)) && !IsClosed(Step(w, Advance(id)).db, x)
  {
    hide Inv;
  }

  // The holder of the row, if there is one, can fail first.
  lemma HolderCanFail(w: World, id: nat, x: nat)
    requires Inv(w) && IsClosed(w.db, x) && id in w.reqs && Pending(w.reqs[id], x) && Row(x) in w.locks
    ensures var holder := w.locks[Row(x)];
      && Enabled(w, Abort(holder)) && Inv(Step(w, Abort(holder)))
      && var w' := Step(w, Abort(holder));
         IsClosed(w'.db, x) && id in w'.reqs && Pending(w'.reqs[id], x) && Row(x) !in w'.locks
  {
    var holder := w.locks[Row(x)];
    assert Holds(w.reqs[holder], Row(x));
    StepKeeps(w, Abort(holder));
    hide Inv;
  }

  /** A closed wallet is closed for ever if and only if no freeze or unfreeze of it is
      between its read and its write. */
  lemma ClosedIsFinalIffSealed(w: World, x: nat)
    requires Inv(w) && IsClosed(w.db, x)
    ensures Sealed(w, x) <==> !CanReopen(w, x)
  {
    hide Step, Inv, Enabled, IsClosed;
    if Sealed(w, x) {
      forall ws: seq<World>, acts: seq<Action> | From(w, ws, acts)
        ensures IsClosed(ws[|acts|].db, x)
      {
        SealedFrom(w, ws, acts, x, |acts|);
      }
    } else {
      var id :| id in w.reqs && Pending(w.reqs[id], x);
      if Row(x) !in w.locks {
        PendingReopens(w, id, x);
        var ws, acts := [w, Step(w, Advance(id))], [Advance(id)];
        assert From(w, ws, acts) && !IsClosed(ws[|acts|].db, x);
      } else {
        var holder := w.locks[Row(x)];
        HolderCanFail(w, id, x);
        var w' := Step(w, Abort(holder));
        PendingReopens(w', id, x);
        var ws, acts := [w, w', Step(w', Advance(id))], [Abort(holder), Advance(id)];
        assert From(w, ws, acts) && !IsClosed(ws[|acts|].db, x);
      }
    }
  }

  // An unfreeze that has read its wallet.
  lemma ReadFirst(db: Db) returns (ws: seq<World>, acts: seq<Action>)
    requires db == Db(map[9 := Wallet(5, 0, Active)], [], map[], map[])
    ensures Run(ws, acts)
    ensures var w := ws[|acts|];
      w.db == db && w.locks == map[] && w.reqs == map[1 := Req(Unfreeze(9), 0, ReadDone)] && w.now == 0
  {
    var w0 := World(db, map[], map[], map[], map[], 0, [], []);
    ws, acts := [w0], [];
    Extend(ws, acts, Spawn(1, Unfreeze(9)));
    var w1 := Step(w0, Spawn(1, Unfreeze(9)));
    ws, acts := ws + [w1], acts + [Spawn(1, Unfreeze(9))];
    Extend(ws, acts, Advance(1));
    var w2 := Step(w1, Advance(1));
    ws, acts := ws + [w2], acts + [Advance(1)];
    assert w2.reqs[1].phase == ReadDone;
  }

  // A close that comes and goes.
  lemma CloseNext(ws: seq<World>, acts: seq<Action>) returns (more: seq<World>, moreActs: seq<Action>)
    requires Run(ws, acts)
    requires var w := ws[|acts|];
      && w.db == Db(map[9 := Wallet(5, 0, Active)], [], map[], map[])
      && w.locks == map[] && w.reqs == map[1 := Req(Unfreeze(9), 0, ReadDone)] && w.now == 0
    ensures Run(more, moreActs)
    ensures var w := more[|moreActs|];
      && w.locks == map[] && IsClosed(w.db, 9) && 1 in w.reqs && w.reqs[1] == Req(Unfreeze(9), 0, ReadDone)
  {
    var w := ws[|acts|];
    Extend(ws, acts, Spawn(2, Close(9)));
    var w1 := Step(w, Spawn(2, Close(9)));
    more, moreActs := ws + [w1], acts + [Spawn(2, Close(9))];
    Extend(more, moreActs, Advance(2));
    var w2 := Step(w1, Advance(2));
    more, moreActs := more + [w2], moreActs + [Advance(2)];
    assert w2.reqs[2].phase == ReadDone;
    Extend(more, moreActs, Advance(2));
    more, moreActs := more + [Step(w2, Advance(2))], moreActs + [Advance(2)];
  }

  /** The promise that a closed wallet cannot be reopened does not hold in general: here an
      unfreeze reads an active wallet, the wallet is closed, and the unfreeze makes it
      ACTIVE again. */
  lemma CloseCanBeUndone() returns (ws: seq<World>, acts: seq<Action>, i: nat)
    ensures Run(ws, acts) && i < |ws| && IsClosed(ws[i].db, 9)
    ensures 9 in ws[|acts|].db.wallets && ws[|acts|].db.wallets[9].status == Active
  {
    ws, acts := ReadFirst(Db(map[9 := Wallet(5, 0, Active)], [], map[], map[]));
    ws, acts := CloseNext(ws, acts);
    i := |acts|;
    var w := ws[i];
    Extend(ws, acts, Advance(1));
    ws, acts := ws + [Step(w, Advance(1))], acts + [Advance(1)];
  }

  // ----- frozen wallets

  predicate Inactive(db: Db, x: nat) {
    x in db.wallets && db.wallets[x].status != Active
  }

  // The step is the write of an unfreeze.
  predicate Unfreezes(w: World, a: Action, x: nat) {
    a.Advance? && a.id in w.reqs && w.reqs[a.id].phase.ReadDone? && w.reqs[a.id].op == Unfreeze(x)
  }

  lemma StepToInactive(w: World, a: Action, x: nat)
    requires Inv(w) && Enabled(w, a) && Inactive(w.db, x) && !Unfreezes(w, a, x)
    ensures Inactive(Step(w, a).db, x)
    ensures Step(w, a).db.wallets[x].balance == w.db.wallets[x].balance
    ensures Of(Step(w, a).db.ledger, x) == Of(w.db.ledger, x)
  {
    StepCommits(w, a);
    if Committed(w, a).Some? && Committed(w, a).value.Request? {
      CommitterIsOpen(w, a);
      var op := w.reqs[a.id].op;
      if op.MovesMoney() {
        hide Step, Inv, Of, Atomic;
        MoneyElsewhere(w.db, a.id, op, Step(w, a).db, x);
      } else {
        WriterHasRead(w, a);
        hide Step, Inv, Of, HasWallet, Enabled;
      }
    } else {
      hide Step, Inv, Of, Enabled, Committed;
    }
  }

  lemma {:induction false} InactiveStays(ws: seq<World>, acts: seq<Action>, i: nat, k: nat, x: nat)
    requires Run(ws, acts) && i <= k < |ws| && Inactive(ws[i].db, x)
    requires forall j | i <= j < k :: !Unfreezes(ws[j], acts[j], x)
    ensures Inactive(ws[k].db, x) && ws[k].db.wallets[x].balance == ws[i].db.wallets[x].balance
    ensures Of(ws[k].db.ledger, x) == Of(ws[i].db.ledger, x)
    decreases k - i
  {
    hide Step, Inv, Enabled, Of, Inactive, Unfreezes;
    if i < k {
      InactiveStays(ws, acts, i, k - 1, x);
      RunInvariants(ws, acts, k - 1);
      assert Next(ws[k - 1], acts[k - 1], ws[k]);
      StepToInactive(ws[k - 1], acts[k - 1], x);
    }
  }

  lemma InactiveTakesNoMoney(db: Db, id: nat, op: Op, x: nat)
    requires Inactive(db, x) && op.MovesMoney() && op.Touches(x)
    ensures Atomic(db, id, op).Err?
  {
    if Atomic(db, id, op).Ok? {
      var _, _, _ := AtomicStages(db, id, op, Atomic(db, id, op).value);
    }
  }

  lemma FreezeWrites(w: World, id: nat, x: nat)
    requires Enabled(w, Advance(id)) && w.reqs[id].phase.ReadDone? && w.reqs[id].op == Freeze(x) && x in w.db.wallets
    ensures var w' := Step(w, Advance(id));
      && w'.db == w.db.(wallets := w.db.wallets[x := w.db.wallets[x].(status := Frozen)])
      && w'.reqs[id].phase == Finished(Returned(None))
  {
    hide Blocked;
  }

  /** A freeze stops money: from the write of a freeze until an unfreeze writes, in any
      interleaving, the wallet is not ACTIVE, its balance and entries do not change, and no
      money operation on it is accepted. */
  lemma FreezeStopsMoney(ws: seq<World>, acts: seq<Action>, i: nat, k: nat, id: nat, x: nat)
    requires Run(ws, acts) && i < k < |ws| && acts[i] == Advance(id) && x in ws[i].db.wallets
    requires id in ws[i].reqs && ws[i].reqs[id].phase.ReadDone? && ws[i].reqs[id].op == Freeze(x)
    requires forall j | i < j < k :: !Unfreezes(ws[j], acts[j], x)
    ensures ws[i + 1].db.wallets == ws[i].db.wallets[x := ws[i].db.wallets[x].(status := Frozen)]
    ensures Inactive(ws[k].db, x) && ws[k].db.wallets[x].balance == ws[i].db.wallets[x].balance
    ensures Of(ws[k].db.ledger, x) == Of(ws[i].db.ledger, x)
    ensures forall r: nat, op: Op | op.MovesMoney() && op.Touches(x) :: Atomic(ws[k].db, r, op).Err?
  {
    hide Step, Enabled, Of, Atomic, Unfreezes;
    assert Next(ws[i], acts[i], ws[i + 1]);
    FreezeWrites(ws[i], id, x);
    InactiveStays(ws, acts, i + 1, k, x);
    forall r: nat, op: Op | op.MovesMoney() && op.Touches(x)
      ensures Atomic(ws[k].db, r, op).Err?
    {
      InactiveTakesNoMoney(ws[k].db, r, op, x);
    }
  }

  // ----- whole lifecycle requests

  // A committed status write that found its wallet closed: the check of its read half would
  // have refused it by then.
  predicate StaleWrite(db: Db, c: Commit) {
    c.Request? && (c.op.Freeze? || c.op.Unfreeze? || c.op.Close?) && IsClosed(db, c.op.w)
  }

  function DoWhole(db: Db, c: Commit): Result<Db> {
    if c.Request? && !c.op.MovesMoney() then Lifecycle(db, c.id, c.op) else Do(db, c)
  }

  // The committed requests run alone one at a time, lifecycle requests with their checks.
  function RunWhole(db: Db, log: seq<Commit>): Result<Db> {
    if log == [] then Ok(db)
    else
      var before :- RunWhole(db, log[..|log| - 1]);
      DoWhole(before, log[|log| - 1])
  }

  ghost predicate NoStaleWrite(db0: Db, log: seq<Commit>) {
    forall i | 0 <= i < |log| && RunLog(db0, log[..i]).Ok? :: !StaleWrite(RunLog(db0, log[..i]).value, log[i])
  }

  lemma WholeUnlessStale(db: Db, c: Commit)
    requires Do(db, c).Ok?
    ensures StaleWrite(db, c) ==> DoWhole(db, c) == Err(WalletClosed)
    ensures !StaleWrite(db, c) ==> DoWhole(db, c) == Do(db, c)
  {
    hide Atomic, SetPayment;
  }

  lemma {:induction false} WholeIffNoStaleWrite(db0: Db, log: seq<Commit>)
    requires RunLog(db0, log).Ok?
    ensures NoStaleWrite(db0, log) ==> RunWhole(db0, log) == RunLog(db0, log)
    ensures !NoStaleWrite(db0, log) ==> RunWhole(db0, log).Err?
    decreases |log|
  {
    hide Do, DoWhole, StaleWrite;
    if log != [] {
      var front, c := log[..|log| - 1], log[|log| - 1];
      LogPrefix(db0, log);
      WholeIffNoStaleWrite(db0, front);
      WholeUnlessStale(RunLog(db0, front).value, c);
      assert forall i | 0 <= i < |front| :: front[..i] == log[..i];
      assert NoStaleWrite(db0, log) <==> NoStaleWrite(db0, front) && !StaleWrite(RunLog(db0, front).value, c) by {
        hide RunLog;
      }
    }
  }

  /** Serializability of whole requests, checks and all: an interleaving leaves what its
      committed requests leave when each is run alone, in commit order, if and only if none of
      its status writes hit a wallet that was closed by then.  Money operations, payments and
      new wallets never stand in the way. */
  lemma SerialIffNoStaleWrite(ws: seq<World>, acts: seq<Action>, i: nat)
    requires Run(ws, acts) && i < |ws|
    ensures RunWhole(ws[0].db, ws[i].log) == Ok(ws[i].db) <==> NoStaleWrite(ws[0].db, ws[i].log)
  {
    hide Inv, RunLog, RunWhole, NoStaleWrite, Faithful, Traced;
    Serializability(ws, acts, i);
    WholeIffNoStaleWrite(ws[0].db, ws[i].log);
  }

  // ----- new wallets

  /** createWallet, with nobody in between, makes a wallet exactly for an owner who has none,
      although its own check asks only that there be none that is open. */
  lemma CreatesIffNoWallet(db: Db, id: nat, owner: nat)
    requires id !in db.wallets
    ensures Lifecycle(db, id, Create(owner)).Ok? <==> !HasWallet(db, owner)
    ensures ReadRefusal(Create(owner), db).None? && HasWallet(db, owner) ==>
              Lifecycle(db, id, Create(owner)) == Err(DuplicateOwner)
  {
  }

  /** In any interleaving: a create request that has passed its check commits if and only if
      no wallet of that owner exists at its write, open or closed. */
  lemma CreateCommitsIffNoWallet(w: World, id: nat)
    requires Inv(w) && id in w.reqs && w.reqs[id].phase.ReadDone? && w.reqs[id].op.Create?
    ensures Enabled(w, Advance(id))
    ensures var w', owner := Step(w, Advance(id)), w.reqs[id].op.owner;
      if HasWallet(w.db, owner)
      then w'.db == w.db && w'.reqs[id].phase == Finished(Thrown(DuplicateOwner))
      else w'.db == w.db.(wallets := w.db.wallets[id := Wallet(owner, 0, Active)])
           && w'.reqs[id].phase == Finished(Returned(None))
  {
    assert Fine(id, w.reqs[id], w.db);
    hide Inv, HasWallet;
  }

  /** An owner whose only wallet is closed: the check lets the request pass, and then the
      unique column refuses it, so a closed wallet cannot be replaced. */
  lemma ClosedOwnerIsRefused() returns (ws: seq<World>, acts: seq<Action>)
    ensures Run(ws, acts) && |acts| == 3
    ensures forall x | x in ws[0].db.wallets && ws[0].db.wallets[x].owner == 5 :: IsClosed(ws[0].db, x)
    ensures 1 in ws[2].reqs && ws[2].reqs[1] == Req(Create(5), 0, ReadDone)
    ensures 1 in ws[3].reqs && ws[3].reqs[1].phase == Finished(Thrown(DuplicateOwner)) && ws[3].db == ws[0].db
  {
    var db := Db(map[9 := Wallet(5, 0, Closed)], [], map[], map[]);
    var w0 := World(db, map[], map[], map[], map[], 0, [], []);
    ws, acts := [w0], [];
    Extend(ws, acts, Spawn(1, Create(5)));
    var w1 := Step(w0, Spawn(1, Create(5)));
    ws, acts := ws + [w1], acts + [Spawn(1, Create(5))];
    Extend(ws, acts, Advance(1));
    var w2 := Step(w1, Advance(1));
    ws, acts := ws + [w2], acts + [Advance(1)];
    assert w2.reqs[1].phase == ReadDone;
    Extend(ws, acts, Advance(1));
    ws, acts := ws + [Step(w2, Advance(1))], acts + [Advance(1)];
    assert db.wallets[9].owner == 5;
  }
}

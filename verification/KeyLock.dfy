/** The Redis lock of the payment protocol: what it gives while every holder is fast
    enough, and that it gives nothing once a holder is slow. */
module KeyLock {
  import opened Tables
  import opened Program
  import opened Engine
  import opened Locking
  import opened Frames
  import opened Runs

  // Between its SET NX and its DEL.
  predicate InTry(req: Req) {
    && req.op.Pay?
    && (req.phase.InTx? || req.phase.Stored? || req.phase.Cached? || req.phase.Published? || req.phase.Unwinding?)
  }

  // Nobody in the try block took its lock t milliseconds ago or more.
  ghost predicate TimelyWithin(w: World, t: nat) {
    forall id | id in w.reqs && InTry(w.reqs[id]) :: w.now < w.reqs[id].since + t
  }

  // The timing assumption: ten seconds.
  ghost predicate Timely(w: World) {
    TimelyWithin(w, LOCK_MS)
  }

  ghost predicate Exclusive(w: World) {
    forall a, b | a in w.reqs && b in w.reqs && InTry(w.reqs[a]) && InTry(w.reqs[b])
                  && w.reqs[a].op.key == w.reqs[b].op.key :: a == b
  }

  predicate OwnsLock(w: World, id: nat)
    requires id in w.reqs && w.reqs[id].op.Pay?
  {
    w.reqs[id].op.key in w.keyLocks && w.keyLocks[w.reqs[id].op.key] == Cell(id, w.reqs[id].since + LOCK_MS)
  }

  ghost predicate LocksOwned(w: World) {
    forall id | id in w.reqs && InTry(w.reqs[id]) :: OwnsLock(w, id)
  }

  // What one step of a request does to the Redis locks.
  ghost predicate KeyLockStep(w: World, w': World, id: nat)
    requires id in w.reqs
  {
    var op := w.reqs[id].op;
    if op.Pay? && w.reqs[id].phase.Missed? && !Alive(w.keyLocks, op.key, w.now) then
      w'.keyLocks == w.keyLocks[op.key := Cell(id, w.now + LOCK_MS)] && id in w'.reqs && w'.reqs[id].since == w.now
    else if op.Pay? && (w.reqs[id].phase.Published? || w.reqs[id].phase.Unwinding?) then
      w'.keyLocks == w.keyLocks - {op.key} && id in w'.reqs && w'.reqs[id].phase.Finished?
    else
      && w'.keyLocks == w.keyLocks
      && (w.reqs[id].phase.Missed? ==> id in w'.reqs && w'.reqs[id].phase == Finished(Thrown(KeyBusy)))
  }

  lemma ProceedKeyLocks(w: World, id: nat)
    requires Enabled(w, Advance(id)) && Shaped(w.reqs[id])
    ensures KeyLockStep(w, Proceed(w, id), id)
  {
    if w.reqs[id].phase.InTx? {
      hide ReadRefusal, RefusedAtOnce, Code, Blocked, Install, Release;
      if w.reqs[id].phase.pc < |Code(w.reqs[id].op)| {
        TxStepFrame(w, id);
        hide TxStep;
      }
    } else {
      hide ReadRefusal, RefusedAtOnce, LifecycleWrite, Blocked, TxStep, CommitTx;
    }
  }

  // The same for a Redis command that throws, done or not done: a lock that is set then has
  // no holder.
  ghost predicate KeyLockMove(w: World, w': World, id: nat)
    requires id in w.reqs
  {
    var op := w.reqs[id].op;
    || w'.keyLocks == w.keyLocks
    || (w.reqs[id].phase.Missed? && op.Pay? && !Alive(w.keyLocks, op.key, w.now)
        && w'.keyLocks == w.keyLocks[op.key := Cell(id, w.now + LOCK_MS)]
        && id in w'.reqs && w'.reqs[id].phase.Finished?)
    || ((w.reqs[id].phase.Published? || w.reqs[id].phase.Unwinding?) && op.Pay?
        && w'.keyLocks == w.keyLocks - {op.key} && id in w'.reqs && w'.reqs[id].phase.Finished?)
  }

  lemma FailureKeyLocks(w: World, id: nat, done: bool)
    requires Enabled(w, RedisFail(id, done))
    ensures KeyLockMove(w, Step(w, RedisFail(id, done)), id)
  {
    hide Blocked;
  }

  lemma KeyLockFrame(w: World, a: Action)
    requires Inv(w) && Enabled(w, a)
    ensures a.Advance? ==> KeyLockStep(w, Step(w, a), a.id)
    ensures a.RedisFail? ==> KeyLockMove(w, Step(w, a), a.id)
    ensures !a.Advance? && !a.RedisFail? ==> Step(w, a).keyLocks == w.keyLocks
  {
    if a.RedisFail? {
      FailureKeyLocks(w, a.id, a.done);
      hide Inv, Step, KeyLockMove;
    } else if a.Advance? {
      assert Shaped(w.reqs[a.id]) by {
        assert Fine(a.id, w.reqs[a.id], w.db);
      }
      ProceedKeyLocks(w, a.id);
      hide Inv, Proceed, KeyLockStep;
    } else {
      hide Inv, Proceed;
    }
  }

  /** Exclusion: two requests that own their locks never share a key. */
  lemma OwnersExclude(w: World, i: nat, j: nat)
    requires LocksOwned(w) && i in w.reqs && j in w.reqs && InTry(w.reqs[i]) && InTry(w.reqs[j])
    requires w.reqs[i].op.key == w.reqs[j].op.key
    ensures i == j
  {
    assert OwnsLock(w, i) && OwnsLock(w, j);
  }

  // Who can be in the try block after a step.
  lemma EnteredTry(w: World, a: Action, id: nat)
    requires Inv(w) && Enabled(w, a) && id in Step(w, a).reqs && InTry(Step(w, a).reqs[id])
    ensures id in w.reqs && w.reqs[id].op == Step(w, a).reqs[id].op
    ensures InTry(w.reqs[id]) || (a == Advance(id) && w.reqs[id].phase.Missed?)
    ensures InTry(w.reqs[id]) ==> Step(w, a).reqs[id].since == w.reqs[id].since
  {
    StepSuccessor(w, a);
    if Subject(a) == Some(id) && !a.Advance? {
      hide Inv, Release;
    } else {
      hide Step, Inv;
    }
  }

  lemma StepKeepsOwned(w: World, a: Action)
    requires Inv(w) && Enabled(w, a) && Timely(w) && LocksOwned(w)
    ensures LocksOwned(Step(w, a))
  {
    KeyLockFrame(w, a);
    var w' := Step(w, a);
    hide Step, Inv;
    forall id | id in w'.reqs && InTry(w'.reqs[id])
      ensures OwnsLock(w', id)
    {
      EnteredTry(w, a, id);
      if InTry(w.reqs[id]) {
        assert OwnsLock(w, id);
        var moved := (a.Advance? || a.RedisFail?) && w'.keyLocks != w.keyLocks;
        if moved && a.id != id && w.reqs[a.id].op.key == w.reqs[id].op.key {
          NoRival(w, id, a.id);
        }
      }
    }
  }

  // While a holder is in time, no other request can set or delete its lock.
  lemma NoRival(w: World, id: nat, rival: nat)
    requires LocksOwned(w) && Timely(w) && id in w.reqs && rival in w.reqs && rival != id
    requires InTry(w.reqs[id]) && w.reqs[rival].op.Pay? && w.reqs[rival].op.key == w.reqs[id].op.key
    ensures !InTry(w.reqs[rival]) && Alive(w.keyLocks, w.reqs[id].op.key, w.now)
  {
    assert OwnsLock(w, id);
    if InTry(w.reqs[rival]) {
      OwnersExclude(w, id, rival);
    }
  }

  /** If every holder so far was in time, then at most one request per key is in its try
      block, and every DEL that is about to happen removes the deleter's own lock. */
  lemma {:induction false} ExclusionWhileTimely(ws: seq<World>, acts: seq<Action>, i: nat)
    requires Run(ws, acts) && i < |ws| && forall j | 0 <= j < i :: Timely(ws[j])
    ensures LocksOwned(ws[i]) && Exclusive(ws[i])
  {
    hide Step, Inv, Enabled, Timely;
    if i > 0 {
      ExclusionWhileTimely(ws, acts, i - 1);
      RunInvariants(ws, acts, i - 1);
      assert Next(ws[i - 1], acts[i - 1], ws[i]);
      StepKeepsOwned(ws[i - 1], acts[i - 1]);
    }
    forall a, b | a in ws[i].reqs && b in ws[i].reqs && InTry(ws[i].reqs[a]) && InTry(ws[i].reqs[b])
                  && ws[i].reqs[a].op.key == ws[i].reqs[b].op.key
      ensures a == b
    {
      OwnersExclude(ws[i], a, b);
    }
  }

  lemma {:induction false} FinishedStays(ws: seq<World>, acts: seq<Action>, i: nat, j: nat, id: nat)
    requires Run(ws, acts) && i <= j < |ws| && id in ws[i].reqs && ws[i].reqs[id].phase.Finished?
    ensures id in ws[j].reqs && ws[j].reqs[id] == ws[i].reqs[id]
    decreases j - i
  {
    hide Step, Inv, Blocked;
    if i < j {
      FinishedStays(ws, acts, i, j - 1, id);
      RunInvariants(ws, acts, j - 1);
      assert Next(ws[j - 1], acts[j - 1], ws[j]);
      StepSuccessor(ws[j - 1], acts[j - 1]);
    }
  }

  /** A request that loses the SET NX is out for good: in every later state of the run it has
      thrown, so it never comes to the try block or to the DEL of its finally. */
  lemma LoserStaysOut(ws: seq<World>, acts: seq<Action>, i: nat, j: nat, id: nat)
    requires Run(ws, acts) && i < j < |ws| && acts[i] == Advance(id)
    requires id in ws[i].reqs && ws[i].reqs[id].op.Pay? && ws[i].reqs[id].phase.Missed?
    requires Alive(ws[i].keyLocks, ws[i].reqs[id].op.key, ws[i].now)
    ensures ws[i + 1].keyLocks == ws[i].keyLocks
    ensures id in ws[j].reqs && ws[j].reqs[id].phase == Finished(Thrown(KeyBusy)) && !InTry(ws[j].reqs[id])
  {
    hide Inv, Step;
    RunInvariants(ws, acts, i);
    assert Next(ws[i], acts[i], ws[i + 1]);
    KeyLockFrame(ws[i], acts[i]);
    FinishedStays(ws, acts, i + 1, j, id);
  }

  lemma StaysInTry(w: World, id: nat)
    requires Inv(w) && Enabled(w, Advance(id)) && w.reqs[id].op.Pay?
    requires var p := w.reqs[id].phase; p.InTx? || p.Stored? || p.Cached?
    ensures id in Step(w, Advance(id)).reqs && InTry(Step(w, Advance(id)).reqs[id])
  {
    assert Fine(id, w.reqs[id], w.db);
    if w.reqs[id].phase.InTx? {
      if w.reqs[id].phase.pc < |Code(w.reqs[id].op)| {
        TxStepShape(w, id);
        hide TxStep, Inv, Code, Release, Blocked;
      } else {
        hide TxStep, Inv, Code, Release, Blocked, Install;
      }
    } else {
      hide TxStep, Inv, Blocked;
    }
  }

  /** Whoever set the lock leaves through the finally: any step of a request in its try block
      leaves it there or deletes the lock on the way out, also when the response could not be
      cached or the job not queued.  Only a crash, or a DEL that is not done, skips it. */
  lemma LeavesThroughFinally(w: World, a: Action, id: nat)
    requires Inv(w) && Enabled(w, a) && Subject(a) == Some(id) && id in w.reqs && InTry(w.reqs[id])
    requires !a.Crash? && (a.RedisFail? ==> a.done || w.reqs[id].phase.Stored? || w.reqs[id].phase.Cached?)
    ensures id in Step(w, a).reqs && Step(w, a).reqs[id].op == w.reqs[id].op
    ensures InTry(Step(w, a).reqs[id])
         || (Step(w, a).reqs[id].phase.Finished? && Step(w, a).keyLocks == w.keyLocks - {w.reqs[id].op.key})
    ensures a.RedisFail? && (w.reqs[id].phase.Stored? || w.reqs[id].phase.Cached?) ==>
              Step(w, a).reqs[id].phase == Unwinding(RedisFailed)
  {
    StepSuccessor(w, a);
    if a.Advance? {
      KeyLockFrame(w, a);
      if !w.reqs[id].phase.Published? && !w.reqs[id].phase.Unwinding? {
        StaysInTry(w, id);
      }
      hide Step, Inv;
    } else {
      hide Inv, Release, Proceed;
    }
  }

  // Neither a crash nor the clock touches the lock.
  lemma CrashKeepsLock(w: World, id: nat)
    requires id in w.reqs && w.reqs[id].Live()
    ensures Enabled(w, Crash(id))
    ensures var w' := Step(w, Crash(id));
      && w'.db == w.db && w'.cache == w.cache && w'.keyLocks == w.keyLocks && w'.now == w.now
      && (forall res | res in w'.locks :: w'.locks[res] != id)
      && w'.reqs == w.reqs[id := w.reqs[id].(phase := Finished(Outcome.Crashed))]
  {
  }

  /** A request may die between any two steps, and if it dies in its try block its lock outlives
      it: until ten seconds after its SET NX, as long as nobody deletes the lock, every other
      request of the key that gets to the lock is refused, and from then on it is let in. */
  lemma CrashedHolderBlocks(w: World, id: nat, ms: nat, retry: nat)
    requires id in w.reqs && InTry(w.reqs[id]) && OwnsLock(w, id) && retry != id
    requires retry in w.reqs && w.reqs[retry].phase.Missed?
    requires w.reqs[retry].op.Pay? && w.reqs[retry].op.key == w.reqs[id].op.key
    ensures Enabled(w, Crash(id)) && Enabled(Step(w, Crash(id)), Tick(ms))
    ensures var later := Step(Step(w, Crash(id)), Tick(ms));
      && Enabled(later, Advance(retry))
      && Step(later, Advance(retry)).reqs[retry].phase
         == if w.now + ms < w.reqs[id].since + 10_000 then Finished(Thrown(KeyBusy)) else InTx(0, map[], NOTHING)
  {
    CrashKeepsLock(w, id);
    var dead := Step(w, Crash(id));
    hide Release;
    assert Step(dead, Tick(ms)) == dead.(now := w.now + ms);
  }

  /** Every Redis command of a payment can throw, done or not done. */
  lemma RedisCanFail(w: World, id: nat, done: bool)
    requires id in w.reqs && w.reqs[id].op.Pay? && w.reqs[id].Live() && !w.reqs[id].phase.InTx?
    ensures Enabled(w, RedisFail(id, done))
    ensures var w' := Step(w, RedisFail(id, done));
      && w'.db == w.db && w'.log == w.log && id in w'.reqs
      && w'.reqs[id].phase
         == (if w.reqs[id].phase.Stored? || w.reqs[id].phase.Cached? then Unwinding(RedisFailed)
             else Finished(Thrown(RedisFailed)))
      && (!done ==> w'.cache == w.cache && w'.keyLocks == w.keyLocks && w'.published == w.published)
  {
  }

  // ----- a slow holder

  lemma Extend(ws: seq<World>, acts: seq<Action>, a: Action)
    requires Run(ws, acts) && Enabled(ws[|acts|], a)
    ensures Run(ws + [Step(ws[|acts|], a)], acts + [a])
  {
    hide Step, Enabled;
    var more, moreActs := ws + [Step(ws[|acts|], a)], acts + [a];
    forall i | 0 <= i < |moreActs|
      ensures Next(more[i], moreActs[i], more[i + 1])
    {
      if i < |acts| {
        assert Next(ws[i], acts[i], ws[i + 1]);
      }
    }
  }

  // A new request whose next steps are its own, at one instant, keeps a run timely.
  lemma StaysTimely(w: World, w': World, id: nat, t: nat)
    requires TimelyWithin(w, t) && 0 < t && w'.now == w.now
    requires id in w'.reqs && w'.reqs == w.reqs[id := w'.reqs[id]]
    requires InTry(w'.reqs[id]) ==> w'.reqs[id].since == w.now
    ensures TimelyWithin(w', t)
  {
  }

  ghost predicate AllTimely(ws: seq<World>, t: nat) {
    forall j | 0 <= j < |ws| :: TimelyWithin(ws[j], t)
  }

  // A payment request on its own walks into its try block in three steps.
  lemma WalkIn(ws: seq<World>, acts: seq<Action>, id: nat, key: string, t: nat)
    returns (more: seq<World>, moreActs: seq<Action>)
    requires Run(ws, acts) && AllTimely(ws, t) && 0 < t
    requires Enabled(ws[|acts|], Spawn(id, Pay(key, 0, 1.0))) && key != ""
    requires !Alive(ws[|acts|].cache, key, ws[|acts|].now) && !Alive(ws[|acts|].keyLocks, key, ws[|acts|].now)
    ensures Run(more, moreActs) && AllTimely(more, t)
    ensures var w, w' := ws[|acts|], more[|moreActs|];
      && w'.now == w.now && w'.db == w.db && w'.cache == w.cache
      && w'.keyLocks == w.keyLocks[key := Cell(id, w.now + LOCK_MS)]
      && w'.reqs == w.reqs[id := Req(Pay(key, 0, 1.0), w.now, InTx(0, map[], NOTHING))]
  {
    var op := Pay(key, 0, 1.0);
    var w := ws[|acts|];
    var w1 := Step(w, Spawn(id, op));
    Extend(ws, acts, Spawn(id, op));
    assert w1 == w.(reqs := w.reqs[id := Req(op, w.now, Arrived)]);
    StaysTimely(w, w1, id, t);
    var w2 := Step(w1, Advance(id));
    Extend(ws + [w1], acts + [Spawn(id, op)], Advance(id));
    assert w2 == w1.(reqs := w1.reqs[id := Req(op, w.now, Missed)]);
    StaysTimely(w1, w2, id, t);
    var w3 := Step(w2, Advance(id));
    Extend(ws + [w1] + [w2], acts + [Spawn(id, op)] + [Advance(id)], Advance(id));
    StaysTimely(w2, w3, id, t);
    more, moreActs := ws + [w1] + [w2] + [w3], acts + [Spawn(id, op)] + [Advance(id)] + [Advance(id)];
    assert w3.reqs == w.reqs[id := Req(op, w.now, InTx(0, map[], NOTHING))];
  }

  // Two requests of one key in their try blocks, the second of which owns the lock that the
  // first is about to delete.
  ghost predicate Clash(w: World) {
    && 1 in w.reqs && 2 in w.reqs && InTry(w.reqs[1]) && InTry(w.reqs[2])
    && w.reqs[1].op.key == w.reqs[2].op.key && OwnsLock(w, 2)
    && Enabled(w, Advance(1)) && Step(w, Advance(1)).keyLocks == map[]
  }

  /** With holders that may take any longer than ten seconds the lock excludes nobody: a
      second request enters the try block beside the first, and the first one's DEL then
      removes the second one's lock. */
  lemma SlowHolderExcludesNobody(t: nat) returns (ws: seq<World>, acts: seq<Action>)
    requires LOCK_MS < t
    ensures Run(ws, acts) && AllTimely(ws, t) && Clash(ws[|acts|])
  {
    var w0 := World(Db(map[], [], map[], map[]), map[], map[], map[], map[], 0, [], []);
    ws, acts := [w0], [];
    ws, acts := WalkIn(ws, acts, 1, "key", t);
    var w1 := ws[|acts|];
    Extend(ws, acts, Tick(LOCK_MS));
    ws, acts := ws + [Step(w1, Tick(LOCK_MS))], acts + [Tick(LOCK_MS)];
    ws, acts := WalkIn(ws, acts, 2, "key", t);
    ws, acts := FirstFails(ws, acts, t);
  }

  lemma FirstFails(ws: seq<World>, acts: seq<Action>, t: nat) returns (more: seq<World>, moreActs: seq<Action>)
    requires Run(ws, acts) && AllTimely(ws, t)
    requires var w := ws[|acts|];
      && 1 in w.reqs && 2 in w.reqs && InTry(w.reqs[2]) && OwnsLock(w, 2) && w.keyLocks.Keys == {w.reqs[2].op.key}
      && w.reqs[1].op.Pay? && w.reqs[1].op.key == w.reqs[2].op.key && w.reqs[1].phase.InTx?
    ensures Run(more, moreActs) && AllTimely(more, t) && Clash(more[|moreActs|])
  {
    var w := ws[|acts|];
    Extend(ws, acts, Abort(1));
    var w' := Step(w, Abort(1));
    more, moreActs := ws + [w'], acts + [Abort(1)];
    assert w'.reqs[1].phase == Unwinding(DatabaseFailed) && InTry(w.reqs[1]);
    hide Run;
  }

  // Holders that always finish within t exclude one another, in every run.
  ghost predicate ExcludesWithin(t: nat) {
    forall ws: seq<World>, acts: seq<Action>, i: nat :: Run(ws, acts) && AllTimely(ws, t) && i < |ws| ==>
      Exclusive(ws[i])
  }

  /** The lock's ten seconds are the exact bound on how long its holders may take. */
  lemma LockTimeBound(t: nat)
    ensures ExcludesWithin(t) <==> t <= 10_000
  {
    if t <= LOCK_MS {
      forall ws: seq<World>, acts: seq<Action>, i: nat | Run(ws, acts) && AllTimely(ws, t) && i < |ws|
        ensures Exclusive(ws[i])
      {
        assert forall j | 0 <= j < i :: TimelyWithin(ws[j], t);
        hide Exclusive, Run;
        ExclusionWhileTimely(ws, acts, i);
      }
    } else {
      var ws, acts := SlowHolderExcludesNobody(t);
      assert !Exclusive(ws[|acts|]);
      hide Run, AllTimely, Exclusive;
    }
  }
}

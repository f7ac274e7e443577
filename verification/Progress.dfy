/** Deadlock freedom and draining.  Resources are ranked: wallets by their ids, and the
    idempotency keys after all wallets. */
module Progress {
  import opened Tables
  import opened Program
  import opened Engine
  import opened Locking
  import opened Frames
  import opened Sums

  // ----- waiting

  ghost predicate Below(a: Res, b: Res) {
    a.Row? && (b.Row? ==> a.w < b.w)
  }

  // i's next step needs something that j holds.
  ghost predicate WaitsFor(w: World, i: nat, j: nat) {
    && i in w.reqs && Wants(w.reqs[i], w.db).Some?
    && Wants(w.reqs[i], w.db).value in w.locks && w.locks[Wants(w.reqs[i], w.db).value] == j
  }

  lemma HolderWantsMore(w: World, h: nat, res: Res)
    requires Inv(w) && h in w.reqs && Holds(w.reqs[h], res)
    ensures w.reqs[h].Live()
    ensures Wants(w.reqs[h], w.db).Some? ==> Below(res, Wants(w.reqs[h], w.db).value)
  {
    assert Fine(h, w.reqs[h], w.db);
    hide LockTable, Play, Keys, Current;
    var req := w.reqs[h];
    if Wants(req, w.db).Some? {
      CodeShape(req.op, req.phase.pc);
    }
  }

  /** Waiting only ever goes upwards in the ranking: whoever holds what I need may itself
      need only something of higher rank. */
  lemma WaitingRises(w: World, i: nat, j: nat)
    requires Inv(w) && WaitsFor(w, i, j)
    ensures j in w.reqs && w.reqs[j].Live()
    ensures Wants(w.reqs[j], w.db).Some? ==> Below(Wants(w.reqs[i], w.db).value, Wants(w.reqs[j], w.db).value)
  {
    var res := Wants(w.reqs[i], w.db).value;
    assert res in w.locks && Holds(w.reqs[j], res);
    HolderWantsMore(w, j, res);
  }

  lemma {:induction false} ChainRises(w: World, chain: seq<nat>, k: nat)
    requires Inv(w) && 0 < k < |chain| && WaitsFor(w, chain[0], chain[1])
    requires forall m | 0 <= m < |chain| - 1 :: WaitsFor(w, chain[m], chain[m + 1])
    requires chain[k] in w.reqs && Wants(w.reqs[chain[k]], w.db).Some?
    ensures Below(Wants(w.reqs[chain[0]], w.db).value, Wants(w.reqs[chain[k]], w.db).value)
  {
    hide Inv, Wants;
    assert WaitsFor(w, chain[k - 1], chain[k - 1 + 1]);
    WaitingRises(w, chain[k - 1], chain[k]);
    if 1 < k {
      ChainRises(w, chain, k - 1);
    }
  }

  /** Deadlock freedom: no chain of requests that wait for one another closes to a cycle. */
  lemma NoWaitingCycle(w: World, chain: seq<nat>)
    requires Inv(w) && 1 < |chain|
    requires forall m | 0 <= m < |chain| - 1 :: WaitsFor(w, chain[m], chain[m + 1])
    ensures chain[0] != chain[|chain| - 1]
  {
    hide Inv, Wants;
    assert WaitsFor(w, chain[0], chain[0 + 1]);
    if chain[0] == chain[|chain| - 1] {
      ChainRises(w, chain, |chain| - 1);
    }
  }

  // ----- someone can always step

  ghost function LockedAbove(w: World, x: nat): set<nat> {
    set res | res in w.locks && res.Row? && x < res.w :: res.w
  }

  lemma {:induction false} Chase(w: World, h: nat, x: nat) returns (r: nat)
    requires Inv(w) && h in w.reqs && Holds(w.reqs[h], Row(x))
    ensures Enabled(w, Advance(r))
    decreases |LockedAbove(w, x)|
  {
    hide Inv, Wants, Fine;
    HolderWantsMore(w, h, Row(x));
    if !Blocked(w, h) {
      r := h;
    } else {
      var wanted := Wants(w.reqs[h], w.db).value;
      var next := w.locks[wanted];
      assert WaitsFor(w, h, next);
      HolderOf(w, wanted);
      HolderWantsMore(w, next, wanted);
      if wanted.KeySlot? {
        r := next;
      } else {
        assert wanted.w in LockedAbove(w, x) && wanted.w !in LockedAbove(w, wanted.w);
        assert LockedAbove(w, wanted.w) < LockedAbove(w, x);
        Smaller(LockedAbove(w, wanted.w), LockedAbove(w, x));
        r := Chase(w, next, wanted.w);
      }
    }
  }

  lemma Smaller(a: set<nat>, b: set<nat>)
    requires a < b
    ensures |a| < |b|
  {
    var x :| x in b && x !in a;
    assert a <= b - {x};
    Fewer(a, b - {x});
  }

  lemma {:induction false} Fewer(a: set<nat>, b: set<nat>)
    requires a <= b
    ensures |a| <= |b|
  {
    if a != {} {
      var x :| x in a;
      Fewer(a - {x}, b - {x});
    }
  }

  lemma HolderOf(w: World, res: Res)
    requires Inv(w) && res in w.locks
    ensures w.locks[res] in w.reqs && Holds(w.reqs[w.locks[res]], res)
  {
  }

  /** In every reachable state with unfinished requests, one of them can step. */
  lemma SomeoneCanStep(w: World, id: nat) returns (r: nat)
    requires Inv(w) && id in w.reqs && w.reqs[id].Live()
    ensures Enabled(w, Advance(r))
  {
    hide Inv, Wants;
    if !Blocked(w, id) {
      r := id;
    } else {
      var wanted := Wants(w.reqs[id], w.db).value;
      var holder := w.locks[wanted];
      HolderOf(w, wanted);
      HolderWantsMore(w, holder, wanted);
      if wanted.KeySlot? {
        r := holder;
      } else {
        r := Chase(w, holder, wanted.w);
      }
    }
  }

  // ----- the steps that remain

  function Remaining(req: Req): nat {
    var code := |Steps(req.op)|;
    match req.phase
    case Arrived => 6 + code
    case Missed => 5 + code
    case InTx(pc, _, _) => if pc <= code then 4 + code - pc else 4
    case ReadDone => 1
    case Stored => 3
    case Cached => 2
    case Published => 1
    case Unwinding(_) => 1
    case Finished(_) => 0
  }

  ghost function RemainingOf(reqs: map<nat, Req>): map<nat, int> {
    map id | id in reqs :: Remaining(reqs[id])
  }

  // All the steps that all requests together can still take.
  ghost function Total(w: World): (n: int)
  {
    Sum(RemainingOf(w.reqs))
  }

  lemma {:induction false} SumNotNegative(m: map<nat, int>)
    requires forall k | k in m :: 0 <= m[k]
    ensures 0 <= Sum(m)
    decreases |m|
  {
    if m != map[] {
      var k :| k in m;
      Take(m, k);
      SumNotNegative(m - {k});
    }
  }

  lemma TotalNotNegative(w: World)
    ensures 0 <= Total(w)
  {
    SumNotNegative(RemainingOf(w.reqs));
  }

  lemma TotalChange(w: World, w': World, id: nat)
    requires id in w.reqs && id in w'.reqs && w'.reqs == w.reqs[id := w'.reqs[id]]
    ensures Total(w') == Total(w) - Remaining(w.reqs[id]) + Remaining(w'.reqs[id])
  {
    hide Sum, Remaining;
    var m := RemainingOf(w.reqs);
    assert RemainingOf(w'.reqs) == m[id := Remaining(w'.reqs[id])];
    Put(m, id, Remaining(w'.reqs[id]));
  }

  // Requests are worked on: everything but arrivals, the clock and payment status writes.
  predicate IsWork(a: Action) {
    a.Advance? || a.Abort? || a.Crash? || a.RedisFail?
  }

  lemma AdvanceShortens(w: World, id: nat)
    requires Inv(w) && Enabled(w, Advance(id))
    ensures id in Proceed(w, id).reqs && Proceed(w, id).reqs == w.reqs[id := Proceed(w, id).reqs[id]]
    ensures Remaining(Proceed(w, id).reqs[id]) < Remaining(w.reqs[id])
  {
    assert Shaped(w.reqs[id]) by {
      assert Fine(id, w.reqs[id], w.db);
    }
    ProceedSuccessor(w, id);
    hide Inv, Proceed, Code, Enabled;
  }

  lemma FailureShortens(w: World, a: Action)
    requires Enabled(w, a) && (a.Abort? || a.Crash? || a.RedisFail?)
    ensures var w' := Step(w, a);
      && a.id in w'.reqs && w'.reqs == w.reqs[a.id := w'.reqs[a.id]]
      && Remaining(w'.reqs[a.id]) < Remaining(w.reqs[a.id])
  {
    hide Release, Steps;
  }

  /** Every step of work strictly decreases the total of remaining steps. */
  lemma WorkShortens(w: World, a: Action)
    requires Inv(w) && Enabled(w, a) && IsWork(a)
    ensures Total(Step(w, a)) < Total(w)
  {
    if a.Advance? {
      AdvanceShortens(w, a.id);
      hide Inv, Enabled, Proceed, Remaining;
      TotalChange(w, Step(w, a), a.id);
    } else {
      FailureShortens(w, a);
      hide Inv, Enabled, Step, Remaining;
      TotalChange(w, Step(w, a), a.id);
    }
  }

  // The clock and payment status writes leave the requests alone.
  lemma OthersLeaveTotal(w: World, a: Action)
    requires Enabled(w, a) && !IsWork(a) && !a.Spawn?
    ensures Total(Step(w, a)) == Total(w)
  {
    hide Sum, Remaining, SetPayment;
  }

  function WorkIn(acts: seq<Action>): nat {
    if acts == [] then 0
    else WorkIn(acts[..|acts| - 1]) + (if IsWork(acts[|acts| - 1]) then 1 else 0)
  }

  /** So on a given set of requests any schedule, with the clock and payment status writes
      mixed in at will, holds at most that many steps of work. */
  lemma {:induction false} WorkIsBounded(w: World, ws: seq<World>, acts: seq<Action>, i: nat)
    requires Inv(w) && From(w, ws, acts) && i < |ws| && forall j | 0 <= j < |acts| :: !acts[j].Spawn?
    ensures Inv(ws[i]) && WorkIn(acts[..i]) + Total(ws[i]) <= Total(w)
  {
    hide Inv, Step, Enabled, Total, IsWork;
    if i > 0 {
      WorkIsBounded(w, ws, acts, i - 1);
      assert Next(ws[i - 1], acts[i - 1], ws[i]) && !acts[i - 1].Spawn?;
      assert acts[..i][..i - 1] == acts[..i - 1];
      StepKeeps(ws[i - 1], acts[i - 1]);
      if IsWork(acts[i - 1]) {
        WorkShortens(ws[i - 1], acts[i - 1]);
      } else {
        OthersLeaveTotal(ws[i - 1], acts[i - 1]);
      }
    }
  }

  predicate AllFinished(w: World) {
    forall id | id in w.reqs :: w.reqs[id].phase.Finished?
  }

  /** Draining: from every reachable state some schedule finishes every request, and by
      WorkIsBounded every schedule that keeps working must. */
  lemma {:induction false} Drains(w: World) returns (ws: seq<World>, acts: seq<Action>)
    requires Inv(w)
    ensures From(w, ws, acts) && AllFinished(ws[|acts|])
    ensures forall a | a in acts :: a.Advance?
    decreases Total(w)
  {
    hide Inv, Step, Enabled, Total;
    TotalNotNegative(w);
    if AllFinished(w) {
      ws, acts := [w], [];
    } else {
      var id :| id in w.reqs && !w.reqs[id].phase.Finished?;
      var r := SomeoneCanStep(w, id);
      StepKeeps(w, Advance(r));
      WorkShortens(w, Advance(r));
      TotalNotNegative(Step(w, Advance(r)));
      var rest, more := Drains(Step(w, Advance(r)));
      ws, acts := [w] + rest, [Advance(r)] + more;
      Prepend(w, Advance(r), rest, more);
    }
  }

  lemma Prepend(w: World, a: Action, rest: seq<World>, more: seq<Action>)
    requires Enabled(w, a) && From(Step(w, a), rest, more)
    ensures From(w, [w] + rest, [a] + more)
  {
    hide Step, Enabled;
    var ws, acts := [w] + rest, [a] + more;
    forall i | 0 <= i < |acts|
      ensures Next(ws[i], acts[i], ws[i + 1])
    {
      if i > 0 {
        assert Next(rest[i - 1], more[i - 1], rest[i - 1 + 1]);
      }
    }
  }

  /** A schedule that has stopped has stopped because nothing is left to do. */
  lemma StuckMeansFinished(w: World)
    requires Inv(w) && forall id :: !Enabled(w, Advance(id))
    ensures AllFinished(w)
  {
    hide Inv, Enabled;
    forall id | id in w.reqs
      ensures w.reqs[id].phase.Finished?
    {
      if w.reqs[id].Live() {
        var r := SomeoneCanStep(w, id);
      }
    }
  }
}

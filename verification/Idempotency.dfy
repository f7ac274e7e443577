/** The idempotent payment protocol.  Safety comes from the unique key column and the
    rollback, not from the Redis lock: nothing here assumes that a lock is still held. */
module Idempotency {
  import opened Money
  import opened Ledger
  import opened Tables
  import opened Program
  import opened Engine
  import opened Locking
  import opened Frames
  import opened Sums
  import opened Books
  import opened Conservation
  import opened Records
  import opened Runs

  ghost predicate HasPayment(db: Db, p: nat, key: string) {
    p in db.payments && db.payments[p].key == key
  }

  // Cached responses are those of committed payments.
  ghost predicate CacheTrue(w: World) {
    forall key | key in w.cache :: HasPayment(w.db, w.cache[key].value, key)
  }

  // What a payment request has to show for the phase it is in.
  ghost predicate PaymentTrue(id: nat, req: Req, db: Db)
    requires req.op.Pay?
  {
    && (req.phase.Stored? || req.phase.Cached? || req.phase.Published? ==> HasPayment(db, id, req.op.key))
    && (req.phase.Finished? && req.phase.outcome.Returned? ==>
          match req.phase.outcome.response
          case Some(p) => HasPayment(db, p, req.op.key)
          case None => false)
    && (id in db.payments ==> HasPayment(db, id, req.op.key))
  }

  // The PAYMENT_SUCCESS jobs: one per payment, published after its commit.
  ghost predicate EventsTrue(w: World) {
    && (forall i, j | 0 <= i < j < |w.published| :: w.published[i] != w.published[j])
    && (forall p | p in w.published :: p in w.db.payments && p in w.reqs && Announced(w.reqs[p].phase))
  }

  predicate Announced(phase: Phase) {
    phase.Published? || phase.Unwinding? || phase.Finished?
  }

  ghost predicate Protocol(w: World) {
    && CacheTrue(w)
    && (forall id | id in w.reqs && w.reqs[id].op.Pay? :: PaymentTrue(id, w.reqs[id], w.db))
    && EventsTrue(w)
  }

  // ----- payments are never lost or changed, except for their status

  lemma PaymentsGrow(w: World, a: Action, p: nat)
    requires Inv(w) && Enabled(w, a) && p in w.db.payments
    ensures p in Step(w, a).db.payments
    ensures Step(w, a).db.payments[p].(status := Initiated) == w.db.payments[p].(status := Initiated)
    ensures w.db.payments[p].status != Initiated ==> Step(w, a).db.payments[p].status != Initiated
  {
    StepCommits(w, a);
    hide Step, Committed;
    if Committed(w, a).Some? {
      var c := Committed(w, a).value;
      if c.Request? && c.op.MovesMoney() {
        assert c.id !in w.db.payments by {
          NewPaymentId(w, a);
        }
        hide Atomic;
        OpPayments(w.db, c.id, c.op, Step(w, a).db);
      }
    }
  }

  lemma NewPaymentId(w: World, a: Action)
    requires Inv(w) && Enabled(w, a) && Committed(w, a).Some? && Committed(w, a).value.Request?
    ensures Committed(w, a).value.id !in w.db.payments
  {
    CommitterIsOpen(w, a);
    assert Fine(a.id, w.reqs[a.id], w.db);
  }

  lemma HasPaymentStays(w: World, a: Action, p: nat, key: string)
    requires Inv(w) && Enabled(w, a) && HasPayment(w.db, p, key)
    ensures HasPayment(Step(w, a).db, p, key)
  {
    hide Step, Inv, Enabled;
    PaymentsGrow(w, a, p);
  }

  // The row that a payment's commit adds.
  lemma CommitAddsPayment(w: World, id: nat)
    requires Inv(w) && id in w.reqs && w.reqs[id].phase.InTx? && w.reqs[id].op.Pay?
    requires w.reqs[id].phase.pc == |Code(w.reqs[id].op)|
    ensures HasPayment(CommitTx(w, id).db, id, w.reqs[id].op.key)
  {
    hide Install;
    CommitTouches(w, id);
  }

  lemma OtherPaymentTrue(w: World, a: Action, id: nat, req: Req)
    requires req.op.Pay?
    requires Inv(w) && Enabled(w, a) && PaymentTrue(id, req, w.db)
    requires id in Step(w, a).db.payments ==> id in w.db.payments
    ensures PaymentTrue(id, req, Step(w, a).db)
  {
    hide Step, Inv, Enabled, HasPayment;
    var key := req.op.key;
    if HasPayment(w.db, id, key) {
      HasPaymentStays(w, a, id, key);
    }
    if req.phase.Finished? && req.phase.outcome.Returned? && req.phase.outcome.response.Some? {
      HasPaymentStays(w, a, req.phase.outcome.response.value, key);
    }
  }

  // A payment request's own step.
  lemma OwnTxStep(w: World, id: nat)
    requires Inv(w) && id in w.reqs && w.reqs[id].op.Pay? && w.reqs[id].phase.InTx?
    requires w.reqs[id].phase.pc < |Code(w.reqs[id].op)| && PaymentTrue(id, w.reqs[id], w.db)
    ensures id in TxStep(w, id).reqs && TxStep(w, id).reqs[id].op == w.reqs[id].op
    ensures PaymentTrue(id, TxStep(w, id).reqs[id], TxStep(w, id).db)
  {
    TxStepFrame(w, id);
    TxStepShape(w, id);
    hide TxStep, Inv, HasPayment, Code, Release;
  }

  lemma OwnCommit(w: World, id: nat)
    requires Inv(w) && id in w.reqs && w.reqs[id].op.Pay? && w.reqs[id].phase.InTx?
    requires w.reqs[id].phase.pc == |Code(w.reqs[id].op)|
    ensures PaymentTrue(id, CommitTx(w, id).reqs[id], CommitTx(w, id).db)
  {
    CommitAddsPayment(w, id);
    hide Inv, HasPayment, Code, Release, Install;
  }

  lemma OwnStart(w: World, id: nat)
    requires id in w.reqs && w.reqs[id].op.Pay? && CacheTrue(w) && PaymentTrue(id, w.reqs[id], w.db)
    ensures PaymentTrue(id, Begin(w, id).reqs[id], Begin(w, id).db)
    ensures PaymentTrue(id, TakeKeyLock(w, id).reqs[id], TakeKeyLock(w, id).db)
  {
    hide RefusedAtOnce;
  }

  lemma OwnEnd(w: World, id: nat)
    requires Enabled(w, Advance(id)) && w.reqs[id].op.Pay? && PaymentTrue(id, w.reqs[id], w.db)
    requires var p := w.reqs[id].phase; p.Stored? || p.Cached? || p.Published? || p.Unwinding?
    ensures PaymentTrue(id, Proceed(w, id).reqs[id], Proceed(w, id).db)
  {
    hide Blocked, HasPayment;
  }

  lemma OwnPaymentTrue(w: World, id: nat)
    requires Inv(w) && Enabled(w, Advance(id)) && w.reqs[id].op.Pay? && CacheTrue(w)
    requires PaymentTrue(id, w.reqs[id], w.db)
    ensures id in Proceed(w, id).reqs && Proceed(w, id).reqs[id].op == w.reqs[id].op
    ensures PaymentTrue(id, Proceed(w, id).reqs[id], Proceed(w, id).db)
  {
    assert Shaped(w.reqs[id]) by {
      assert Fine(id, w.reqs[id], w.db);
    }
    ProceedSuccessor(w, id);
    var phase := w.reqs[id].phase;
    if phase.InTx? {
      hide TxStep, CommitTx, Code, PaymentTrue, Blocked, Successor;
      if phase.pc < |Code(w.reqs[id].op)| {
        OwnTxStep(w, id);
      } else {
        OwnCommit(w, id);
      }
    } else if phase.Arrived? || phase.Missed? {
      hide Begin, TakeKeyLock, PaymentTrue, Blocked, Inv, Successor;
      OwnStart(w, id);
    } else {
      hide Proceed, PaymentTrue, Blocked, Inv, Successor;
      OwnEnd(w, id);
    }
  }

  lemma StepPayment(w: World, a: Action, id: nat)
    requires Inv(w) && Enabled(w, a) && Protocol(w) && id in Step(w, a).reqs && Step(w, a).reqs[id].op.Pay?
    ensures PaymentTrue(id, Step(w, a).reqs[id], Step(w, a).db)
  {
    StepSuccessor(w, a);
    if id in w.reqs {
      assert w.reqs[id].op.Pay? && PaymentTrue(id, w.reqs[id], w.db);
      if a == Advance(id) {
        hide Proceed, PaymentTrue;
        OwnPaymentTrue(w, id);
      } else if Subject(a) == Some(id) {
        hide Inv, Step, PaymentTrue;
        FailedPaymentTrue(w, a, id);
      } else {
        hide Step, Inv, Enabled, PaymentTrue, CacheTrue, EventsTrue;
        PaymentIdIsOwn(w, a, id);
        OtherPaymentTrue(w, a, id, w.reqs[id]);
      }
    } else {
      hide Inv;
      SpawnedPaymentTrue(w, a, id);
    }
  }

  lemma SpawnedPaymentTrue(w: World, a: Action, id: nat)
    requires Enabled(w, a) && a.Spawn? && a.id == id && a.op.Pay?
    ensures PaymentTrue(id, Step(w, a).reqs[id], Step(w, a).db)
  {
  }

  lemma FailedPaymentTrue(w: World, a: Action, id: nat)
    requires Enabled(w, a) && id in w.reqs && Subject(a) == Some(id) && !a.Advance?
    requires w.reqs[id].op.Pay? && PaymentTrue(id, w.reqs[id], w.db)
    ensures id in Step(w, a).reqs && PaymentTrue(id, Step(w, a).reqs[id], Step(w, a).db)
  {
    hide Release;
  }

  lemma PaymentIdIsOwn(w: World, a: Action, id: nat)
    requires Inv(w) && Enabled(w, a) && a != Advance(id)
    ensures id in Step(w, a).db.payments ==> id in w.db.payments
  {
    StepCommits(w, a);
    if Committed(w, a).Some? {
      CommittedRows(w, a);
      if Committed(w, a).value.Request? {
        CommitterIsOpen(w, a);
      }
    }
  }

  // Only a payment's own steps after its commit write the cache or the queue.
  ghost predicate CacheAndQueue(w: World, w': World, id: nat)
    requires id in w.reqs
  {
    && (w'.cache == w.cache ||
          (w.reqs[id].op.Pay? && w.reqs[id].phase.Stored?
           && exists t :: w'.cache == w.cache[w.reqs[id].op.key := Cell(id, t)]))
    && (w'.published == w.published ||
          (w.reqs[id].phase.Cached? && w'.published == w.published + [id]))
  }

  lemma ProceedCacheAndQueue(w: World, id: nat)
    requires Enabled(w, Advance(id)) && Shaped(w.reqs[id])
    ensures CacheAndQueue(w, Proceed(w, id), id)
  {
    var phase := w.reqs[id].phase;
    if phase.InTx? {
      hide ReadRefusal, RefusedAtOnce, Code, Blocked, Install, Release;
      if phase.pc < |Code(w.reqs[id].op)| {
        TxStepFrame(w, id);
        hide TxStep;
      }
    } else {
      hide ReadRefusal, RefusedAtOnce, LifecycleWrite, Blocked, TxStep, CommitTx;
    }
  }

  lemma FailureCacheAndQueue(w: World, id: nat, done: bool)
    requires Enabled(w, RedisFail(id, done))
    ensures CacheAndQueue(w, Step(w, RedisFail(id, done)), id)
  {
    hide Blocked;
  }

  lemma CacheAndEvents(w: World, a: Action)
    requires Enabled(w, a) && Inv(w)
    ensures a.Advance? || a.RedisFail? ==> CacheAndQueue(w, Step(w, a), a.id)
    ensures !a.Advance? && !a.RedisFail? ==> Step(w, a).cache == w.cache && Step(w, a).published == w.published
  {
    if a.Advance? {
      assert Shaped(w.reqs[a.id]) by {
        assert Fine(a.id, w.reqs[a.id], w.db);
      }
      ProceedCacheAndQueue(w, a.id);
      hide Inv, Proceed, CacheAndQueue;
    } else if a.RedisFail? {
      FailureCacheAndQueue(w, a.id, a.done);
      hide Inv, Step, CacheAndQueue;
    } else {
      hide Inv, Proceed;
    }
  }

  lemma CacheStaysTrue(w: World, a: Action)
    requires Inv(w) && Enabled(w, a) && Protocol(w)
    ensures CacheTrue(Step(w, a))
  {
    CacheAndEvents(w, a);
    var w' := Step(w, a);
    hide Step, Inv, Enabled;
    forall key | key in w'.cache
      ensures HasPayment(w'.db, w'.cache[key].value, key)
    {
      if w'.cache != w.cache && key == w.reqs[a.id].op.key {
        assert PaymentTrue(a.id, w.reqs[a.id], w.db);
        HasPaymentStays(w, a, a.id, key);
      } else {
        HasPaymentStays(w, a, w.cache[key].value, key);
      }
    }
  }

  lemma AnnouncedStays(w: World, a: Action, p: nat)
    requires Inv(w) && Enabled(w, a) && p in w.reqs && Announced(w.reqs[p].phase)
    ensures p in Step(w, a).reqs && Announced(Step(w, a).reqs[p].phase)
  {
    StepSuccessor(w, a);
    if Subject(a) == Some(p) && !a.Advance? {
      hide Inv, Release;
    } else {
      hide Step, Inv;
    }
  }

  lemma EventsStayTrue(w: World, a: Action)
    requires Inv(w) && Enabled(w, a) && Protocol(w)
    ensures EventsTrue(Step(w, a))
  {
    CacheAndEvents(w, a);
    StepSuccessor(w, a);
    var w' := Step(w, a);
    if w'.published != w.published {
      assert Shaped(w.reqs[a.id]) by {
        assert Fine(a.id, w.reqs[a.id], w.db);
      }
      assert PaymentTrue(a.id, w.reqs[a.id], w.db);
      PublishingPhase(w, a);
    }
    hide Step, Inv, Enabled;
    forall p | p in w'.published
      ensures p in w'.db.payments && p in w'.reqs && Announced(w'.reqs[p].phase)
    {
      if p in w.published {
        AnnouncedStays(w, a, p);
        PaymentsGrow(w, a, p);
      } else {
        PaymentsGrow(w, a, p);
      }
    }
  }

  lemma PublishingPhase(w: World, a: Action)
    requires Enabled(w, a) && (a.Advance? || a.RedisFail?) && w.reqs[a.id].phase.Cached?
    ensures a.id in Step(w, a).reqs && Announced(Step(w, a).reqs[a.id].phase)
  {
  }

  lemma ProtocolKeeps(w: World, a: Action)
    requires Inv(w) && Enabled(w, a) && Protocol(w)
    ensures Protocol(Step(w, a))
  {
    CacheStaysTrue(w, a);
    EventsStayTrue(w, a);
    var w' := Step(w, a);
    hide Step, Inv, Enabled, CacheTrue, EventsTrue, PaymentTrue;
    forall id | id in w'.reqs && w'.reqs[id].op.Pay?
      ensures PaymentTrue(id, w'.reqs[id], w'.db)
    {
      StepPayment(w, a, id);
    }
  }

  lemma {:induction false} RunProtocol(ws: seq<World>, acts: seq<Action>, i: nat)
    requires Run(ws, acts) && i < |ws|
    ensures Protocol(ws[i])
  {
    hide Step, Enabled, Inv;
    if i > 0 {
      RunProtocol(ws, acts, i - 1);
      RunInvariants(ws, acts, i - 1);
      assert Next(ws[i - 1], acts[i - 1], ws[i]);
      ProtocolKeeps(ws[i - 1], acts[i - 1]);
    }
  }

  // ----- the theorems

  /** At most one effect per key, in every run: through lock expiry, a holder deleting
      another holder's lock, cache expiry, crashes and late cache misses, all committed
      payments and all committed payment requests of one key are one, and that one has
      exactly one ledger entry, a credit of its amount. */
  lemma OneEffectPerKey(ws: seq<World>, acts: seq<Action>, i: nat, p: nat, q: nat)
    requires Run(ws, acts) && i < |ws| && Recorded(ws[0].db)
    requires p in ws[i].db.payments && q in ws[i].db.payments
    requires ws[i].db.payments[p].key == ws[i].db.payments[q].key
    ensures p == q && p in ws[i].db.txs
    ensures var written := Written(ws[i].db.ledger, p);
      |written| == 1 && IsEntry(written[0], p, ws[i].db.txs[p].receiver, Credit, ws[i].db.payments[p].amount)
  {
    hide Written, Run;
    RecordsInEveryState(ws, acts, i);
    assert PaidFor(ws[i].db, p);
    assert Booked(p, ws[i].db.txs[p], Written(ws[i].db.ledger, p));
  }

  lemma OneCommitPerKey(ws: seq<World>, acts: seq<Action>, i: nat, m: nat, n: nat)
    requires Run(ws, acts) && i < |ws| && Recorded(ws[0].db)
    requires m < |ws[i].log| && n < |ws[i].log| && ws[i].log[m].Request? && ws[i].log[n].Request?
    requires ws[i].log[m].op.Pay? && ws[i].log[n].op.Pay? && ws[i].log[m].op.key == ws[i].log[n].op.key
    ensures m == n
  {
    hide Recorded, Inv, FreshLog, Serial;
    RunInvariants(ws, acts, i);
    RunProtocol(ws, acts, i);
    LoggedPayment(ws[i], m);
    LoggedPayment(ws[i], n);
    hide Run;
    OneEffectPerKeyAt(ws, acts, i, ws[i].log[m].id, ws[i].log[n].id);
  }

  lemma OneEffectPerKeyAt(ws: seq<World>, acts: seq<Action>, i: nat, p: nat, q: nat)
    requires Run(ws, acts) && i < |ws| && Recorded(ws[0].db)
    requires exists key :: HasPayment(ws[i].db, p, key) && HasPayment(ws[i].db, q, key)
    ensures p == q
  {
    hide Run, Recorded;
    OneEffectPerKey(ws, acts, i, p, q);
  }

  lemma LoggedPayment(w: World, m: nat)
    requires Faithful(w) && Traced(w) && Protocol(w)
    requires m < |w.log| && w.log[m].Request? && w.log[m].op.Pay?
    ensures HasPayment(w.db, w.log[m].id, w.log[m].op.key)
  {
    var id := w.log[m].id;
    assert w.log[m] == Request(id, w.reqs[id].op);
    assert PaymentTrue(id, w.reqs[id], w.db);
  }

  /** Stable responses: any two successful returns for one key, fresh or cached, carry the
      same payment, and it is a committed one. */
  lemma StableResponses(ws: seq<World>, acts: seq<Action>, i: nat, a: nat, b: nat)
    requires Run(ws, acts) && i < |ws| && Recorded(ws[0].db) && a in ws[i].reqs && b in ws[i].reqs
    requires ws[i].reqs[a].op.Pay? && ws[i].reqs[b].op.Pay? && ws[i].reqs[a].op.key == ws[i].reqs[b].op.key
    requires ws[i].reqs[a].phase.Finished? && ws[i].reqs[a].phase.outcome.Returned?
    requires ws[i].reqs[b].phase.Finished? && ws[i].reqs[b].phase.outcome.Returned?
    ensures ws[i].reqs[a].phase.outcome.response == ws[i].reqs[b].phase.outcome.response
    ensures var response := ws[i].reqs[a].phase.outcome.response;
      response.Some? && HasPayment(ws[i].db, response.value, ws[i].reqs[a].op.key)
  {
    hide Recorded, Inv, Run;
    RunProtocol(ws, acts, i);
    assert PaymentTrue(a, ws[i].reqs[a], ws[i].db);
    assert PaymentTrue(b, ws[i].reqs[b], ws[i].db);
    var first, second := ws[i].reqs[a].phase.outcome.response, ws[i].reqs[b].phase.outcome.response;
    OneEffectPerKeyAt(ws, acts, i, first.value, second.value);
  }

  // Past the step that caches the response.
  predicate Responded(phase: Phase) {
    phase.Cached? || phase.Published? || phase.Unwinding? || phase.Finished?
  }

  lemma RespondedStays(w: World, a: Action, id: nat)
    requires Inv(w) && Enabled(w, a) && id in w.reqs && Responded(w.reqs[id].phase)
    ensures id in Step(w, a).reqs && Step(w, a).reqs[id].op == w.reqs[id].op
    ensures Responded(Step(w, a).reqs[id].phase)
  {
    StepSuccessor(w, a);
    hide Step, Inv;
  }

  lemma ResponseStays(w: World, a: Action, id: nat, cell: Cell)
    requires Inv(w) && Enabled(w, a) && Protocol(w) && UniqueKeys(w.db)
    requires id in w.reqs && w.reqs[id].op.Pay? && Responded(w.reqs[id].phase)
    requires HasPayment(w.db, id, w.reqs[id].op.key)
    requires w.reqs[id].op.key in w.cache && w.cache[w.reqs[id].op.key] == cell
    ensures w.reqs[id].op.key in Step(w, a).cache && Step(w, a).cache[w.reqs[id].op.key] == cell
  {
    CacheAndEvents(w, a);
    hide Step, Inv;
    if Step(w, a).cache != w.cache {
      assert PaymentTrue(a.id, w.reqs[a.id], w.db);
    }
  }

  lemma FirstResponse(w: World, id: nat)
    requires Enabled(w, Advance(id)) && w.reqs[id].phase.Stored? && w.reqs[id].op.Pay?
    ensures var w', key := Step(w, Advance(id)), w.reqs[id].op.key;
      && id in w'.reqs && w'.reqs[id].op == w.reqs[id].op && w'.reqs[id].phase == Cached && w'.db == w.db
      && key in w'.cache && w'.cache[key] == Cell(id, w.now + 86_400_000)
  {
    hide Blocked;
  }

  /** A cached response stays for a day: from the step that stores it no step of any request
      removes or replaces it. */
  lemma {:induction false} CachedForADay(ws: seq<World>, acts: seq<Action>, i: nat, j: nat, id: nat)
    requires Run(ws, acts) && i < j < |ws| && Recorded(ws[0].db) && acts[i] == Advance(id)
    requires id in ws[i].reqs && ws[i].reqs[id].op.Pay? && ws[i].reqs[id].phase.Stored?
    ensures id in ws[j].reqs && ws[j].reqs[id].op == ws[i].reqs[id].op && Responded(ws[j].reqs[id].phase)
    ensures var key := ws[i].reqs[id].op.key;
      && HasPayment(ws[j].db, id, key)
      && key in ws[j].cache && ws[j].cache[key] == Cell(id, ws[i].now + 86_400_000)
    decreases j - i
  {
    hide Step, Inv, Enabled, Protocol, HasPayment, UniqueKeys;
    var w, a := ws[j - 1], acts[j - 1];
    assert Next(w, a, ws[j]);
    RunInvariants(ws, acts, j - 1);
    RunProtocol(ws, acts, j - 1);
    RecordsInEveryState(ws, acts, j - 1);
    var key := ws[i].reqs[id].op.key;
    if i + 1 == j {
      StoredHasPayment(w, id);
      HasPaymentStays(w, a, id, key);
      FirstResponse(w, id);
    } else {
      CachedForADay(ws, acts, i, j - 1, id);
      RespondedStays(w, a, id);
      HasPaymentStays(w, a, id, key);
      ResponseStays(w, a, id, Cell(id, ws[i].now + 86_400_000));
    }
  }

  lemma StoredHasPayment(w: World, id: nat)
    requires Protocol(w) && id in w.reqs && w.reqs[id].op.Pay? && w.reqs[id].phase.Stored?
    ensures HasPayment(w.db, id, w.reqs[id].op.key)
  {
    assert PaymentTrue(id, w.reqs[id], w.db);
  }

  /** A retry is answered from the cache exactly for 24 hours: with the first payment, and
      without touching anything else.  After that it goes on to the lock. */
  lemma RetryIsAnswered(ws: seq<World>, acts: seq<Action>, i: nat, j: nat, id: nat, retry: nat)
    requires Run(ws, acts) && i < j < |acts| && Recorded(ws[0].db)
    requires acts[i] == Advance(id) && acts[j] == Advance(retry)
    requires id in ws[i].reqs && ws[i].reqs[id].op.Pay? && ws[i].reqs[id].phase.Stored?
    requires retry in ws[j].reqs && ws[j].reqs[retry].op.Pay? && ws[j].reqs[retry].phase.Arrived?
    requires ws[j].reqs[retry].op.key == ws[i].reqs[id].op.key != ""
    ensures retry in ws[j + 1].reqs
    ensures ws[j + 1].reqs[retry].phase
         == if ws[j].now < ws[i].now + 86_400_000 then Finished(Returned(Some(id))) else Missed
    ensures ws[j + 1] == ws[j].(reqs := ws[j + 1].reqs)
  {
    assert Next(ws[j], acts[j], ws[j + 1]);
    CachedForADay(ws, acts, i, j, id);
    hide HasPayment, Blocked, ReadRefusal;
  }

  /** The worker can handle every announced payment, at any later time and as often as the job
      is delivered, and each time the payment becomes SUCCESS. */
  lemma AnnouncedCanBeDelivered(ws: seq<World>, acts: seq<Action>, i: nat, p: nat)
    requires Run(ws, acts) && i < |ws| && p in ws[i].published
    ensures Enabled(ws[i], Deliver(p))
    ensures var db := Step(ws[i], Deliver(p)).db;
      p in db.payments && db.payments[p] == ws[i].db.payments[p].(status := PaymentStatus.Success)
  {
    RunProtocol(ws, acts, i);
  }

  /** A gateway verdict can come at any time for every committed payment, and sets it to
      SUCCESS or FAILED, whatever its status was. */
  lemma CanBeVerified(w: World, p: nat, success: bool)
    requires p in w.db.payments
    ensures Enabled(w, Verify(p, success))
    ensures var w' := Step(w, Verify(p, success));
      && p in w'.db.payments
      && w'.db.payments[p] == w.db.payments[p].(
           status := if success then PaymentStatus.Success else PaymentStatus.Failed)
      && w' == w.(db := w.db.(payments := w'.db.payments), log := w.log + [PaymentSet(p, success)])
  {
  }

  /** Events: a payment is announced at most once, and only after it is committed. */
  lemma AnnouncedOnce(ws: seq<World>, acts: seq<Action>, i: nat, m: nat, n: nat)
    requires Run(ws, acts) && i < |ws| && m < |ws[i].published| && n < |ws[i].published|
    ensures ws[i].published[m] in ws[i].db.payments
    ensures ws[i].published[m] == ws[i].published[n] ==> m == n
  {
    hide Run;
    RunProtocol(ws, acts, i);
    assert ws[i].published[m] in ws[i].published;
  }

  /** A second attempt at a key: it has already credited the wallet in its own transaction
      when the unique column stops it, and the rollback takes everything with it. */
  lemma SecondAttemptIsRolledBack(w: World, id: nat)
    requires Inv(w) && id in w.reqs && w.reqs[id].phase.InTx? && w.reqs[id].op.Pay?
    requires w.reqs[id].phase.pc + 1 == |Code(w.reqs[id].op)|
    requires w.reqs[id].op.key in Keys(w.db) && Enabled(w, Advance(id))
    ensures var done := w.reqs[id].phase.done;
      |done.entries| == 1 && done.entries[0].kind == Credit && w.reqs[id].op.to in done.balances && done.tx.Some?
    ensures var w' := Step(w, Advance(id));
      && w'.db == w.db && w'.log == w.log
      && w'.reqs[id].phase == Unwinding(DuplicateKey)
      && forall res | res in w'.locks :: w'.locks[res] != id
  {
    assert Fine(id, w.reqs[id], w.db);
    CreditedByThen(id, w.reqs[id].op, w.reqs[id].phase.snap, Keys(w.db));
    hide Play, LockTable, Keys;
  }

  lemma CreditedByThen(id: nat, op: Op, rows: map<nat, Wallet>, keys: set<string>)
    requires op.Pay? && Play(id, op, rows, keys, 5).Ok?
    ensures var done := Play(id, op, rows, keys, 5).value;
      |done.entries| == 1 && done.entries[0].kind == Credit && op.to in done.balances && done.tx.Some?
  {
    hide Play, Cents, After, Fits, Refusal;
    PlayNext(id, op, rows, keys, 0);
    PlayNext(id, op, rows, keys, 1);
    PlayNext(id, op, rows, keys, 2);
    PlayNext(id, op, rows, keys, 3);
    PlayNext(id, op, rows, keys, 4);
  }

  /** Payment status: worker deliveries, redeliveries and gateway verifications touch no
      balance, ledger entry or transaction, and a status never returns to INITIATED. */
  lemma StatusStepsMoveNoMoney(w: World, a: Action)
    requires Inv(w) && Enabled(w, a) && (a.Deliver? || a.Verify?)
    ensures Step(w, a).db.wallets == w.db.wallets && Step(w, a).db.ledger == w.db.ledger
    ensures Step(w, a).db.txs == w.db.txs
    ensures Step(w, a).db.payments.Keys == w.db.payments.Keys
    ensures Step(w, a).db.payments[a.payment].status
         == (if a.Deliver? || a.success then PaymentStatus.Success else PaymentStatus.Failed)
    ensures forall p | p in w.db.payments && p != a.payment :: Step(w, a).db.payments[p] == w.db.payments[p]
  {
    hide Inv;
  }

  /** Over a whole run a payment row keeps every column but its status; the status stays within
      INITIATED, SUCCESS and FAILED, and once it has left INITIATED it never returns. */
  lemma {:induction false} StatusNeverReturns(ws: seq<World>, acts: seq<Action>, i: nat, j: nat, p: nat)
    requires Run(ws, acts) && i <= j < |ws| && Recorded(ws[0].db) && p in ws[i].db.payments
    ensures p in ws[j].db.payments
    ensures ws[j].db.payments[p].status in {Initiated, PaymentStatus.Success, PaymentStatus.Failed}
    ensures ws[i].db.payments[p].status != Initiated ==> ws[j].db.payments[p].status != Initiated
    ensures ws[j].db.payments[p].(status := Initiated) == ws[i].db.payments[p].(status := Initiated)
    decreases j - i
  {
    hide Step, Inv, Enabled;
    RecordsInEveryState(ws, acts, j);
    if i < j {
      StatusNeverReturns(ws, acts, i, j - 1, p);
      RunInvariants(ws, acts, j - 1);
      assert Next(ws[j - 1], acts[j - 1], ws[j]);
      PaymentsGrow(ws[j - 1], acts[j - 1], p);
    }
    assert PaidFor(ws[j].db, p);
  }
}

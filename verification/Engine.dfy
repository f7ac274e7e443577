/** The money engine as a transition system: any number of requests, interleaved step by
    step over the committed tables, the row locks, Redis and the payment queue.  A
    request can fail or its process can crash between any two steps. */
module Engine {
  import opened Money
  import opened Ledger
  import opened Tables
  import opened Program

  // What a database transaction can make another one wait for: a row lock, or the
  // unique index entry of a payment that is inserted and not yet committed.
  datatype Res = Row(w: nat) | KeySlot(key: string)

  // A Redis string with an expiry time.
  datatype Cell = Cell(value: nat, expires: nat)

  const LOCK_MS: nat := 10_000        // SET … NX EX 10
  const CACHE_MS: nat := 86_400_000   // SET … EX 86400

  datatype Outcome = Returned(response: Option<nat>) | Thrown(error: Error) | Crashed

  datatype Phase =
    | Arrived
    | Missed                          // payment: the response cache had nothing
    | InTx(pc: nat, snap: map<nat, Wallet>, done: Writes)
    | ReadDone                        // wallet lifecycle: between the read and the write
    | Stored                          // payment: committed, response not cached yet
    | Cached                          // payment: event not published yet
    | Published                       // payment: only the lock is left to release
    | Unwinding(cause: Error)         // payment: thrown inside the try block
    | Finished(outcome: Outcome)

  datatype Req = Req(op: Op, since: nat, phase: Phase) {
    predicate Live() {
      !phase.Finished?
    }
  }

  datatype World = World(
    db: Db,
    locks: map<Res, nat>,
    reqs: map<nat, Req>,
    cache: map<string, Cell>,         // idempotency:<key>, holding a payment id
    keyLocks: map<string, Cell>,      // idempotency_lock:<key>; the holder is not stored by the code
    now: nat,
    published: seq<nat>,              // PAYMENT_SUCCESS jobs, by payment id
    log: seq<Commit>)                 // history of the committed changes

  datatype Action =
    | Spawn(id: nat, op: Op)
    | Advance(id: nat)
    | Abort(id: nat)                  // the database transaction fails
    | Crash(id: nat)                  // the process running the request dies
    | RedisFail(id: nat, done: bool)  // the request's next Redis command throws, done or not done
    | Tick(ms: nat)
    | Deliver(payment: nat)           // the worker handles a job, for the first time or again
    | Verify(payment: nat, success: bool)

  predicate Alive(cells: map<string, Cell>, key: string, now: nat) {
    key in cells && now < cells[key].expires
  }

  function Release(locks: map<Res, nat>, id: nat): map<Res, nat> {
    map res | res in locks && locks[res] != id :: locks[res]
  }

  // The lock that the request's next step needs.
  function Wants(req: Req, db: Db): Option<Res> {
    match req.phase
    case InTx(pc, _, _) =>
      if !req.op.MovesMoney() || |Code(req.op)| <= pc then None
      else if Code(req.op)[pc].LockRow? then
        // no such row: nothing to lock
        if Code(req.op)[pc].w in db.wallets then Some(Row(Code(req.op)[pc].w)) else None
      else if Code(req.op)[pc].InsertPayment? && req.op.Pay? then Some(KeySlot(req.op.key))
      else None
    case ReadDone => if req.op.Freeze? || req.op.Unfreeze? || req.op.Close? then Some(Row(req.op.w)) else None
    case _ => None
  }

  predicate Blocked(w: World, id: nat)
    requires id in w.reqs
  {
    var wants := Wants(w.reqs[id], w.db);
    wants.Some? && wants.value in w.locks
  }

  predicate Enabled(w: World, a: Action) {
    match a
    case Spawn(id, op) =>
      id !in w.reqs && id !in w.db.wallets && id !in w.db.txs && id !in w.db.payments
    case Advance(id) => id in w.reqs && w.reqs[id].Live() && !Blocked(w, id)
    case Abort(id) => id in w.reqs && w.reqs[id].phase.InTx?
    case Crash(id) => id in w.reqs && w.reqs[id].Live()
    case RedisFail(id, _) =>
      id in w.reqs && w.reqs[id].op.Pay? && w.reqs[id].Live() && !w.reqs[id].phase.InTx?
    case Tick(_) => true
    case Deliver(p) => p in w.published && p in w.db.payments
    case Verify(p, _) => p in w.db.payments
  }

  function SetPhase(w: World, id: nat, phase: Phase): World
    requires id in w.reqs
  {
    w.(reqs := w.reqs[id := w.reqs[id].(phase := phase)])
  }

  // The transaction ends without a commit: its writes are dropped, its locks released.
  function RollBack(w: World, id: nat, cause: Error): World
    requires id in w.reqs
  {
    var phase := if w.reqs[id].op.Pay? then Unwinding(cause) else Finished(Thrown(cause));
    SetPhase(w, id, phase).(locks := Release(w.locks, id))
  }

  function Begin(w: World, id: nat): World
    requires id in w.reqs
  {
    var op := w.reqs[id].op;
    if !op.MovesMoney() then
      var refused := ReadRefusal(op, w.db);
      SetPhase(w, id, if refused.Some? then Finished(Thrown(refused.value)) else ReadDone)
    else if RefusedAtOnce(op).Some? then SetPhase(w, id, Finished(Thrown(RefusedAtOnce(op).value)))
    else if op.Pay? then
      if Alive(w.cache, op.key, w.now)
      then SetPhase(w, id, Finished(Returned(Some(w.cache[op.key].value))))
      else SetPhase(w, id, Missed)
    else SetPhase(w, id, InTx(0, map[], NOTHING))
  }

  function TakeKeyLock(w: World, id: nat): World
    requires id in w.reqs && w.reqs[id].op.Pay?
  {
    var key := w.reqs[id].op.key;
    if Alive(w.keyLocks, key, w.now) then SetPhase(w, id, Finished(Thrown(KeyBusy)))
    else w.(
         keyLocks := w.keyLocks[key := Cell(id, w.now + LOCK_MS)],
         reqs := w.reqs[id := Req(w.reqs[id].op, w.now, InTx(0, map[], NOTHING))])
  }

  // One step inside the database transaction.
  function TxStep(w: World, id: nat): World
    requires id in w.reqs && w.reqs[id].phase.InTx? && w.reqs[id].op.MovesMoney()
    requires w.reqs[id].phase.pc < |Code(w.reqs[id].op)|
  {
    var op := w.reqs[id].op;
    var InTx(pc, snap, done) := w.reqs[id].phase;
    var instr := Code(op)[pc];
    if instr.LockRow? then
      if instr.w in w.db.wallets
      then SetPhase(w, id, InTx(pc + 1, snap[instr.w := w.db.wallets[instr.w]], done))
           .(locks := w.locks[Row(instr.w) := id])
      else SetPhase(w, id, InTx(pc + 1, snap, done))
    else
      var acted := Act(id, op, snap, Keys(w.db), instr, done);
      if acted.Err? then RollBack(w, id, acted.error)
      else
        var locks := if instr.InsertPayment? && op.Pay? then w.locks[KeySlot(op.key) := id] else w.locks;
        SetPhase(w, id, InTx(pc + 1, snap, acted.value)).(locks := locks)
  }

  function CommitTx(w: World, id: nat): World
    requires id in w.reqs && w.reqs[id].phase.InTx?
  {
    var op := w.reqs[id].op;
    SetPhase(w, id, if op.Pay? then Stored else Finished(Returned(None))).(
      db := Install(w.db, id, w.reqs[id].phase.done),
      locks := Release(w.locks, id),
      log := w.log + [Request(id, op)])
  }

  function WriteLifecycle(w: World, id: nat): World
    requires id in w.reqs && !w.reqs[id].op.MovesMoney()
  {
    var op := w.reqs[id].op;
    var written := LifecycleWrite(w.db, id, op);
    if written.Err? then SetPhase(w, id, Finished(Thrown(written.error)))
    else SetPhase(w, id, Finished(Returned(None))).(db := written.value, log := w.log + [Request(id, op)])
  }

  // The finally block: an unconditional DEL.
  function ReleaseKey(w: World, id: nat, outcome: Outcome): World
    requires id in w.reqs && w.reqs[id].op.Pay?
  {
    SetPhase(w, id, Finished(outcome)).(keyLocks := w.keyLocks - {w.reqs[id].op.key})
  }

  function Proceed(w: World, id: nat): World
    requires Enabled(w, Advance(id))
  {
    var op := w.reqs[id].op;
    match w.reqs[id].phase
    case Arrived => Begin(w, id)
    case Missed => if op.Pay? then TakeKeyLock(w, id) else w
    case InTx(pc, _, _) =>
      if !op.MovesMoney() then w
      else if pc < |Code(op)| then TxStep(w, id)
      else CommitTx(w, id)
    case ReadDone => if op.MovesMoney() then w else WriteLifecycle(w, id)
    case Stored =>
      if !op.Pay? then w
      else SetPhase(w, id, Cached).(cache := w.cache[op.key := Cell(id, w.now + CACHE_MS)])
    case Cached => SetPhase(w, id, Published).(published := w.published + [id])
    case Published => if op.Pay? then ReleaseKey(w, id, Returned(Some(id))) else w
    case Unwinding(cause) => if op.Pay? then ReleaseKey(w, id, Thrown(cause)) else w
  }

  // The Redis command of a payment's next step, without the answer that the request waits
  // for: the lock, the cached response, the job, or the release of the lock.
  function RedisCommand(w: World, id: nat): World
    requires id in w.reqs && w.reqs[id].op.Pay?
  {
    var key := w.reqs[id].op.key;
    match w.reqs[id].phase
    case Missed =>
      if Alive(w.keyLocks, key, w.now) then w
      else w.(keyLocks := w.keyLocks[key := Cell(id, w.now + LOCK_MS)])
    case Stored => w.(cache := w.cache[key := Cell(id, w.now + CACHE_MS)])
    case Cached => w.(published := w.published + [id])
    case Published => w.(keyLocks := w.keyLocks - {key})
    case Unwinding(_) => w.(keyLocks := w.keyLocks - {key})
    case _ => w
  }

  function PaymentStatusStep(w: World, p: nat, success: bool): World {
    var written := SetPayment(w.db, p, success);
    if written.Err? then w else w.(db := written.value, log := w.log + [PaymentSet(p, success)])
  }

  function Step(w: World, a: Action): World
    requires Enabled(w, a)
  {
    match a
    case Spawn(id, op) => w.(reqs := w.reqs[id := Req(op, w.now, Arrived)])
    case Advance(id) => Proceed(w, id)
    case Abort(id) => RollBack(w, id, DatabaseFailed)
    case Crash(id) => SetPhase(w, id, Finished(Outcome.Crashed)).(locks := Release(w.locks, id))
    case RedisFail(id, done) =>
      var phase := w.reqs[id].phase;
      SetPhase(if done then RedisCommand(w, id) else w, id,
               if phase.Stored? || phase.Cached? then Unwinding(RedisFailed)
               else Finished(Thrown(RedisFailed)))
    case Tick(ms) => w.(now := w.now + ms)
    case Deliver(p) => PaymentStatusStep(w, p, true)
    case Verify(p, success) => PaymentStatusStep(w, p, success)
  }

  // ----- runs

  predicate Initial(w: World) {
    && w.locks == map[] && w.reqs == map[] && w.cache == map[] && w.keyLocks == map[]
    && w.published == [] && w.log == []
  }

  ghost predicate Next(w: World, a: Action, w': World) {
    Enabled(w, a) && w' == Step(w, a)
  }

  ghost predicate Run(ws: seq<World>, acts: seq<Action>) {
    && |ws| == |acts| + 1
    && Initial(ws[0])
    && forall i | 0 <= i < |acts| :: Next(ws[i], acts[i], ws[i + 1])
  }

  // A continuation of w, whatever led to w.
  ghost predicate From(w: World, ws: seq<World>, acts: seq<Action>) {
    && |ws| == |acts| + 1 && ws[0] == w
    && forall i | 0 <= i < |acts| :: Next(ws[i], acts[i], ws[i + 1])
  }
}

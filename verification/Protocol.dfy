/** The service as a state machine: any number of request handlers, queue consumers and cached
    readers, each with a program counter, over one database, one Redis and one queue.
    A run is any sequence of events; an event that is not enabled changes nothing but the step count. */
module Protocol {
  import opened Domain
  import opened Stores

  // ---- Processes -----------------------------------------------------------

  /** What `CreateTransaction` answers. */
  datatype Response =
    | BadRequest
    | InvalidUser
    | AlreadyProcessed(id: TxnId)
    | InsertFailed
    | Queued(id: TxnId)
    | QueueUnavailable(id: TxnId)

  /** Program counters of `CreateTransaction` (api/handler/transaction.go). */
  datatype HandlerPc =
    | CheckUser
    | CheckKey
    | Insert
    | SetKey(t: TxnId)
    | Publish(t: TxnId)
    | Replied(response: Response)
    | Died

  datatype Handler = Handler(req: Request, pc: HandlerPc)

  /** Program counters of the consumer loop around `processTransaction` (api/main.go). */
  datatype ConsumerPc =
    | Idle
    | Claimed(m: Message)
    | Begun(m: Message, snap: Snapshot)
    | StatusSet(m: Message, snap: Snapshot)
    | BalanceSet(m: Message, snap: Snapshot)
    | DropBalance(m: Message, entry: nat)
    | DropTransaction(m: Message)
    | ToAck(m: Message)
    | ToNack(m: Message)

  /** `inbox` is what the client has been handed and not answered, the message in progress first; while `up`, it is also
      what the broker counts as unacked by this consumer.  `up` is false once the broker has lost the channel: it has
      requeued those messages, but the process works on through the copies it holds until it notices. */
  datatype Consumer = Consumer(pc: ConsumerPc, inbox: seq<Message>, up: bool)

  /** Program counters of `CreateTransactionV0` (api/handler/v0_transaction.go). */
  datatype SyncPc =
    | SyncCheck
    | SyncBegin
    | SyncInsert(snap: Snapshot)
    | SyncBalance(snap: Snapshot)
    | SyncCommit(snap: Snapshot)
    | SyncRejected
    | SyncFailed
    | SyncDone(t: TxnId)

  datatype Sync = Sync(req: Request, pc: SyncPc)

  /** Program counters of `GetUserBalance` and `GetTransaction`; the value read waits to be stored. */
  datatype ReaderPc =
    | Probe
    | Query
    | Store(val: CacheValue, readStep: nat, readTime: Time)
    | Hit(val: CacheValue)
    | Miss(val: CacheValue)
    | NotFound
    | ReadFailed

  datatype Reader = Reader(key: Key, start: Time, pc: ReaderPc)

  // ---- State ---------------------------------------------------------------

  /** A committed balance change: by a consumer pass or, when `sync`, by a V0 request. */
  datatype Commit = Commit(txn: TxnId, user: UserId, delta: int, sync: bool, step: nat)

  datatype Accepted = Accepted(txn: TxnId, req: Request, sync: bool)

  /** History variables: no guard of any step looks at them.
      `drops` records, by index into `log`, the step at which a pass deleted its balance key. */
  datatype History = History(
    step: nat,
    log: seq<Commit>,
    drops: map<nat, nat>,
    accepted: seq<Accepted>,
    enqueued: set<TxnId>,
    lost: set<TxnId>,
    acked: set<TxnId>)

  /** `ttl` is CACHE_TTL_SECONDS, `prefetch` is RABBITMQ_PREFETCH_COUNT (0 means no limit). */
  datatype Config = Config(ttl: Time, prefetch: nat)

  datatype State = State(
    cfg: Config,
    clock: Time,
    db: Db,
    cache: Cache,
    ready: seq<Message>,
    handlers: seq<Handler>,
    consumers: seq<Consumer>,
    syncs: seq<Sync>,
    readers: seq<Reader>,
    hist: History)

  const IDEMPOTENCY_TTL: Time := 86_400 * SECOND
  const REQUEST_DEADLINE: Time := 5 * SECOND

  const NO_HISTORY := History(0, [], map[], [], {}, {}, {})

  /** Any database, nothing cached, nothing queued, `n` idle consumers. */
  function Start(cfg: Config, clock: Time, db: Db, n: nat): State {
    State(cfg, clock, db, map[], [], [], seq(n, _ => Consumer(Idle, [], true)), [], [], NO_HISTORY)
  }

  // ---- Events --------------------------------------------------------------

  datatype HandlerEvent =
    | DoCheckUser(ok: bool)
    | DoCheckKey(ok: bool)
    | DoInsert(t: TxnId, reference: string, outcome: Outcome)
    | DoSetKey(ok: bool)
    | DoPublish(sending: Sending)
    | Die

  datatype ConsumerEvent =
    | Deliver
    | Claim(outcome: Outcome)
    | Begin(ok: bool)
    | SetStatus(ok: bool)
    | SetBalance(ok: bool)
    | DoCommit(outcome: Outcome)
    | DeleteBalance(ok: bool)
    | DeleteTransaction(ok: bool)
    | Ack
    | Nack
    | Crash
    | Disconnect
    | Notice

  datatype SyncEvent =
    | DoSyncCheck(ok: bool)
    | DoSyncBegin(ok: bool)
    | DoSyncInsert(ok: bool)
    | DoSyncBalance(ok: bool)
    | DoSyncCommit(t: TxnId, reference: string, outcome: Outcome)
    | SyncDie

  datatype ReaderEvent =
    | DoProbe(ok: bool)
    | DoQuery(ok: bool)
    | DoStore(ok: bool)

  datatype Event =
    | Post(req: Request)
    | OnHandler(h: nat, he: HandlerEvent)
    | OnConsumer(c: nat, ce: ConsumerEvent)
    | PostSync(req: Request)
    | OnSync(v: nat, ve: SyncEvent)
    | GetKey(key: Key)
    | OnReader(r: nat, re: ReaderEvent)
    | Tick(d: Time)
    | Evict(key: Key)

  // ---- Handlers ------------------------------------------------------------

  function SetHandler(s: State, h: nat, pc: HandlerPc): State
    requires h < |s.handlers|
  {
    s.(handlers := s.handlers[h := s.handlers[h].(pc := pc)])
  }

  /** The transaction whose row the handler has inserted but not yet published. */
  function InHand(pc: HandlerPc): Option<TxnId> {
    match pc
    case SetKey(t) => Some(t)
    case Publish(t) => Some(t)
    case _ => None
  }

  function Lose(hist: History, t: TxnId): History {
    hist.(lost := hist.lost + {t})
  }

  /** The user exists and is active, read from the database; any error reads as an invalid user. */
  function HandlerCheckUser(s: State, h: nat, ok: bool): State
    requires h < |s.handlers| && s.handlers[h].pc.CheckUser?
  {
    var req := s.handlers[h].req;
    if !ok || !UserActive(s.db, req.user) then SetHandler(s, h, Replied(InvalidUser))
    else SetHandler(s, h, if req.key == "" then Insert else CheckKey)
  }

  /** Idempotency lookup: only a hit ends the request; an error falls through like a miss. */
  function HandlerCheckKey(s: State, h: nat, ok: bool): State
    requires h < |s.handlers| && s.handlers[h].pc.CheckKey?
  {
    var req := s.handlers[h].req;
    var found := CacheGet(s.cache, IdempotencyKey(req.user, req.key), s.clock, ok);
    if found.Some? && found.value.IdVal? then SetHandler(s, h, Replied(AlreadyProcessed(found.value.id)))
    else SetHandler(s, h, Insert)
  }

  function HandlerInsert(s: State, h: nat, t: TxnId, reference: string, outcome: Outcome): State
    requires h < |s.handlers| && s.handlers[h].pc.Insert?
  {
    var req := s.handlers[h].req;
    if outcome.NotDone? || !Insertable(s.db, t, req) then SetHandler(s, h, Replied(InsertFailed))
    else
      var inserted := s.(
        db := InsertRow(s.db, t, req, reference, Pending, s.clock),
        hist := s.hist.(accepted := s.hist.accepted + [Accepted(t, req, false)]));
      if outcome.Ambiguous? then
        SetHandler(inserted.(hist := Lose(inserted.hist, t)), h, Replied(InsertFailed))
      else
        SetHandler(inserted, h, if req.key == "" then Publish(t) else SetKey(t))
  }

  /** The error of `cache.Set` is ignored. */
  function HandlerSetKey(s: State, h: nat, ok: bool): State
    requires h < |s.handlers| && s.handlers[h].pc.SetKey?
  {
    var req, t := s.handlers[h].req, s.handlers[h].pc.t;
    var stored := if !ok then s else
      s.(cache := s.cache[IdempotencyKey(req.user, req.key) :=
        Entry(IdVal(t), s.clock + IDEMPOTENCY_TTL, s.hist.step, s.clock, s.hist.step)]);
    SetHandler(stored, h, Publish(t))
  }

  /** The message reaches the queue: it arrives and there is room for it. */
  predicate Enqueues(s: State, sending: Sending) {
    (sending.Arrived? || sending.ArrivedUnseen?) && !QueueFull(s.ready)
  }

  /** Without publisher confirms a message lost on the way, or dropped by a full queue, looks published. */
  function HandlerPublish(s: State, h: nat, sending: Sending): State
    requires h < |s.handlers| && s.handlers[h].pc.Publish?
  {
    var req, t := s.handlers[h].req, s.handlers[h].pc.t;
    var reply := Replied(if Reported(sending) then QueueUnavailable(t) else Queued(t));
    if !Enqueues(s, sending) then SetHandler(s.(hist := Lose(s.hist, t)), h, reply)
    else
      SetHandler(s.(
        ready := s.ready + [MessageOf(t, req)],
        hist := s.hist.(enqueued := s.hist.enqueued + {t})), h, reply)
  }

  /** The process dies; a row it had inserted but not published is lost to the queue. */
  function HandlerDie(s: State, h: nat): State
    requires h < |s.handlers|
  {
    var pc := s.handlers[h].pc;
    if pc.Replied? || pc.Died? then s
    else
      var held := InHand(pc);
      SetHandler(if held.Some? then s.(hist := Lose(s.hist, held.value)) else s, h, Died)
  }

  function StepHandler(s: State, h: nat, e: HandlerEvent): State
    requires h < |s.handlers|
  {
    var pc := s.handlers[h].pc;
    match e
    case DoCheckUser(ok) => if pc.CheckUser? then HandlerCheckUser(s, h, ok) else s
    case DoCheckKey(ok) => if pc.CheckKey? then HandlerCheckKey(s, h, ok) else s
    case DoInsert(t, reference, outcome) => if pc.Insert? then HandlerInsert(s, h, t, reference, outcome) else s
    case DoSetKey(ok) => if pc.SetKey? then HandlerSetKey(s, h, ok) else s
    case DoPublish(sending) => if pc.Publish? then HandlerPublish(s, h, sending) else s
    case Die => HandlerDie(s, h)
  }

  // ---- Consumers -----------------------------------------------------------

  function SetConsumer(s: State, c: nat, k: Consumer): State
    requires c < |s.consumers|
  {
    s.(consumers := s.consumers[c := k])
  }

  function SetPc(s: State, c: nat, pc: ConsumerPc): State
    requires c < |s.consumers|
  {
    SetConsumer(s, c, s.consumers[c].(pc := pc))
  }

  predicate CanDeliver(s: State, c: nat)
    requires c < |s.consumers|
  {
    var k := s.consumers[c];
    k.up && s.ready != [] && (s.cfg.prefetch == 0 || |k.inbox| < s.cfg.prefetch)
  }

  function ConsumerDeliver(s: State, c: nat): State
    requires c < |s.consumers|
  {
    if !CanDeliver(s, c) then s
    else
      var k := s.consumers[c];
      SetConsumer(s.(ready := s.ready[1..]), c, k.(inbox := k.inbox + [s.ready[0]]))
  }

  /** The messages the broker still counts as unacked by the consumer. */
  function Unanswered(k: Consumer): seq<Message> {
    if k.up then k.inbox else []
  }

  /** The process restarts; the broker requeues everything it had not seen acked. */
  function ConsumerCrash(s: State, c: nat): State
    requires c < |s.consumers|
  {
    SetConsumer(s.(ready := Unanswered(s.consumers[c]) + s.ready), c, Consumer(Idle, [], true))
  }

  /** The broker loses the channel and requeues; the process keeps its copies. */
  function ConsumerDisconnect(s: State, c: nat): State
    requires c < |s.consumers|
  {
    SetConsumer(s.(ready := Unanswered(s.consumers[c]) + s.ready), c, s.consumers[c].(up := false))
  }

  /** The process notices that its channel is gone: the delivery loop ends with the pass in progress. */
  function ConsumerNotice(s: State, c: nat): State
    requires c < |s.consumers|
  {
    var k := s.consumers[c];
    if k.up || k.inbox == [] then s
    else SetConsumer(s, c, k.(inbox := if k.pc.Idle? then [] else k.inbox[..1]))
  }

  /** The autocommit `UPDATE ... 'processing'`, whatever the row's status is. */
  function ConsumerClaim(s: State, c: nat, outcome: Outcome): State
    requires c < |s.consumers| && s.consumers[c].pc.Idle?
  {
    var k := s.consumers[c];
    if k.inbox == [] then s
    else
      var m := k.inbox[0];
      var db := if outcome.NotDone? then s.db else MarkProcessing(s.db, m.txn, s.clock);
      SetPc(s.(db := db), c, if outcome.Done? then Claimed(m) else ToNack(m))
  }

  function ConsumerBegin(s: State, c: nat, ok: bool): State
    requires c < |s.consumers| && s.consumers[c].pc.Claimed?
  {
    var m := s.consumers[c].pc.m;
    SetPc(s, c, if ok then Begun(m, TakeSnapshot(s.db, m.txn, m.user, s.clock)) else ToNack(m))
  }

  function ConsumerSetStatus(s: State, c: nat, ok: bool): State
    requires c < |s.consumers| && s.consumers[c].pc.Begun?
  {
    var pc := s.consumers[c].pc;
    SetPc(s, c, if ok then StatusSet(pc.m, pc.snap) else ToNack(pc.m))
  }

  /** A type the switch does not list runs no balance statement. */
  function ConsumerSetBalance(s: State, c: nat, ok: bool): State
    requires c < |s.consumers| && s.consumers[c].pc.StatusSet?
  {
    var pc := s.consumers[c].pc;
    SetPc(s, c, if ok || !Listed(pc.m.kind) then BalanceSet(pc.m, pc.snap) else ToNack(pc.m))
  }

  function ConsumerCommit(s: State, c: nat, outcome: Outcome): State
    requires c < |s.consumers| && s.consumers[c].pc.BalanceSet?
  {
    var m, snap := s.consumers[c].pc.m, s.consumers[c].pc.snap;
    if outcome.NotDone? || !Validates(s.db, m, snap) then SetPc(s, c, ToNack(m))
    else
      var commit := Commit(m.txn, m.user, Delta(m.kind, m.amount), false, s.hist.step);
      var committed := s.(db := InstallPass(s.db, m, snap), hist := s.hist.(log := s.hist.log + [commit]));
      SetPc(committed, c, if outcome.Done? then DropBalance(m, |s.hist.log|) else ToNack(m))
  }

  /** The errors of the two `cache.Delete` calls are ignored. */
  function ConsumerDeleteBalance(s: State, c: nat, ok: bool): State
    requires c < |s.consumers| && s.consumers[c].pc.DropBalance?
  {
    var m, entry := s.consumers[c].pc.m, s.consumers[c].pc.entry;
    var dropped := if !ok then s else
      s.(cache := CacheDelete(s.cache, BalanceKey(m.user)),
         hist := s.hist.(drops := s.hist.drops[entry := s.hist.step]));
    SetPc(dropped, c, DropTransaction(m))
  }

  function ConsumerDeleteTransaction(s: State, c: nat, ok: bool): State
    requires c < |s.consumers| && s.consumers[c].pc.DropTransaction?
  {
    var m := s.consumers[c].pc.m;
    SetPc(if ok then s.(cache := CacheDelete(s.cache, TransactionKey(m.txn))) else s, c, ToAck(m))
  }

  /** On a lost channel an answer goes nowhere. */
  function ConsumerAck(s: State, c: nat): State
    requires c < |s.consumers| && s.consumers[c].pc.ToAck?
  {
    var k := s.consumers[c];
    if k.inbox == [] then s
    else
      var acked := if k.up then s.hist.acked + {k.pc.m.txn} else s.hist.acked;
      SetConsumer(s.(hist := s.hist.(acked := acked)), c, Consumer(Idle, k.inbox[1..], k.up))
  }

  function ConsumerNack(s: State, c: nat): State
    requires c < |s.consumers| && s.consumers[c].pc.ToNack?
  {
    var k := s.consumers[c];
    if k.inbox == [] then s
    else
      var ready := if k.up then [k.pc.m] + s.ready else s.ready;
      SetConsumer(s.(ready := ready), c, Consumer(Idle, k.inbox[1..], k.up))
  }

  function StepConsumer(s: State, c: nat, e: ConsumerEvent): State
    requires c < |s.consumers|
  {
    var pc := s.consumers[c].pc;
    match e
    case Deliver => ConsumerDeliver(s, c)
    case Claim(outcome) => if pc.Idle? then ConsumerClaim(s, c, outcome) else s
    case Begin(ok) => if pc.Claimed? then ConsumerBegin(s, c, ok) else s
    case SetStatus(ok) => if pc.Begun? then ConsumerSetStatus(s, c, ok) else s
    case SetBalance(ok) => if pc.StatusSet? then ConsumerSetBalance(s, c, ok) else s
    case DoCommit(outcome) => if pc.BalanceSet? then ConsumerCommit(s, c, outcome) else s
    case DeleteBalance(ok) => if pc.DropBalance? then ConsumerDeleteBalance(s, c, ok) else s
    case DeleteTransaction(ok) => if pc.DropTransaction? then ConsumerDeleteTransaction(s, c, ok) else s
    case Ack => if pc.ToAck? then ConsumerAck(s, c) else s
    case Nack => if pc.ToNack? then ConsumerNack(s, c) else s
    case Crash => ConsumerCrash(s, c)
    case Disconnect => ConsumerDisconnect(s, c)
    case Notice => ConsumerNotice(s, c)
  }

  // ---- The synchronous path ------------------------------------------------

  function SetSync(s: State, v: nat, pc: SyncPc): State
    requires v < |s.syncs|
  {
    s.(syncs := s.syncs[v := s.syncs[v].(pc := pc)])
  }

  function SyncCommitTx(s: State, v: nat, t: TxnId, reference: string, outcome: Outcome): State
    requires v < |s.syncs| && s.syncs[v].pc.SyncCommit?
  {
    var req, snap := s.syncs[v].req, s.syncs[v].pc.snap;
    if outcome.NotDone? || !Insertable(s.db, t, req) || !AccountUnchanged(s.db, req.user, snap.account)
    then SetSync(s, v, SyncFailed)
    else
      var commit := Commit(t, req.user, Delta(req.kind, req.amount), true, s.hist.step);
      SetSync(s.(
        db := InstallSync(s.db, t, req, reference, snap.at, snap.account),
        hist := s.hist.(
          log := s.hist.log + [commit],
          accepted := s.hist.accepted + [Accepted(t, req, true)])),
        v, if outcome.Done? then SyncDone(t) else SyncFailed)
  }

  /** The inserted row is visible, and its random id fixed, only at commit. */
  function StepSync(s: State, v: nat, e: SyncEvent): State
    requires v < |s.syncs|
  {
    var req, pc := s.syncs[v].req, s.syncs[v].pc;
    match e
    case DoSyncCheck(ok) =>
      if !pc.SyncCheck? then s
      else SetSync(s, v, if ok && UserActive(s.db, req.user) then SyncBegin else SyncRejected)
    case DoSyncBegin(ok) =>
      if !pc.SyncBegin? then s
      else SetSync(s, v, if ok then SyncInsert(Snapshot(None, Lookup(s.db.users, req.user), s.clock)) else SyncFailed)
    case DoSyncInsert(ok) =>
      if !pc.SyncInsert? then s else SetSync(s, v, if ok then SyncBalance(pc.snap) else SyncFailed)
    case DoSyncBalance(ok) =>
      if !pc.SyncBalance? then s else SetSync(s, v, if ok then SyncCommit(pc.snap) else SyncFailed)
    case DoSyncCommit(t, reference, outcome) =>
      if pc.SyncCommit? then SyncCommitTx(s, v, t, reference, outcome) else s
    case SyncDie =>
      if pc.SyncDone? || pc.SyncRejected? then s else SetSync(s, v, SyncFailed)
  }

  // ---- Cache-aside readers -------------------------------------------------

  function SetReader(s: State, r: nat, pc: ReaderPc): State
    requires r < |s.readers|
  {
    s.(readers := s.readers[r := s.readers[r].(pc := pc)])
  }

  function ReaderProbe(s: State, r: nat, ok: bool): State
    requires r < |s.readers| && s.readers[r].pc.Probe?
  {
    var found := CacheGet(s.cache, s.readers[r].key, s.clock, ok);
    SetReader(s, r, if found.Some? then Hit(found.value) else Query)
  }

  function ReaderQuery(s: State, r: nat, ok: bool): State
    requires r < |s.readers| && s.readers[r].pc.Query?
  {
    var found := ReadFor(s.db, s.readers[r].key);
    SetReader(s, r,
      if !ok then ReadFailed
      else if found.Some? then Store(found.value, s.hist.step, s.clock)
      else NotFound)
  }

  /** A store issued after the request's deadline is refused by the client, like any other failed store. */
  function ReaderStore(s: State, r: nat, ok: bool): State
    requires r < |s.readers| && s.readers[r].pc.Store?
  {
    var rd := s.readers[r];
    var stored := if !ok || s.clock > rd.start + REQUEST_DEADLINE then s else
      s.(cache := s.cache[rd.key :=
        Entry(rd.pc.val, s.clock + s.cfg.ttl, rd.pc.readStep, rd.pc.readTime, s.hist.step)]);
    SetReader(stored, r, Miss(rd.pc.val))
  }

  function StepReader(s: State, r: nat, e: ReaderEvent): State
    requires r < |s.readers|
  {
    var pc := s.readers[r].pc;
    match e
    case DoProbe(ok) => if pc.Probe? then ReaderProbe(s, r, ok) else s
    case DoQuery(ok) => if pc.Query? then ReaderQuery(s, r, ok) else s
    case DoStore(ok) => if pc.Store? then ReaderStore(s, r, ok) else s
  }

  // ---- The machine ---------------------------------------------------------

  function Step(s: State, e: Event): State {
    match e
    case Post(req) => s.(handlers := s.handlers + [Handler(req, if Bound(req) then CheckUser else Replied(BadRequest))])
    case OnHandler(h, he) => if h < |s.handlers| then StepHandler(s, h, he) else s
    case OnConsumer(c, ce) => if c < |s.consumers| then StepConsumer(s, c, ce) else s
    case PostSync(req) => s.(syncs := s.syncs + [Sync(req, if Bound(req) then SyncCheck else SyncRejected)])
    case OnSync(v, ve) => if v < |s.syncs| then StepSync(s, v, ve) else s
    case GetKey(key) => if key.IdempotencyKey? then s else s.(readers := s.readers + [Reader(key, s.clock, Probe)])
    case OnReader(r, re) => if r < |s.readers| then StepReader(s, r, re) else s
    case Tick(d) => s.(clock := s.clock + d)
    case Evict(key) => s.(cache := CacheDelete(s.cache, key))
  }

  function Next(s: State, e: Event): State {
    var s' := Step(s, e);
    s'.(hist := s'.hist.(step := s.hist.step + 1))
  }

  function Run(s: State, es: seq<Event>): State
    decreases |es|
  {
    if es == [] then s else Next(Run(s, es[..|es| - 1]), es[|es| - 1])
  }
}

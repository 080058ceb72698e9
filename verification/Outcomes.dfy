/** What each operation answers and what it leaves in the stores when it runs alone, spelled out in columns, key strings
    and constants.  Nothing here is used by the machine or by the methods: they are proved to agree with it. */
module Outcomes {
  import opened Domain
  import opened Protocol
  import opened CacheKeys
  import opened Services

  datatype World = World(users: map<UserId, Account>, txns: map<TxnId, Row>, store: map<string, Item>, queue: seq<Body>)

  // ---- CreateTransaction ---------------------------------------------------

  /** How each of the handler's calls turns out. */
  datatype CreateOutcomes = CreateOutcomes(user: bool, lookup: bool, insert: Outcome, remember: bool, publish: Sending)

  predicate Acceptable(req: Request) {
    (req.kind == Credit || req.kind == Debit || req.kind == Transfer) && req.amount > 0
  }

  predicate Known(w: World, u: UserId) {
    u in w.users && w.users[u].active
  }

  function RedisKey(req: Request): string {
    "idempotency:" + req.user.text + ":" + req.key
  }

  predicate Repeated(w: World, now: Time, req: Request, lookup: bool) {
    && req.key != "" && lookup
    && RedisKey(req) in w.store && now <= w.store[RedisKey(req)].exp && w.store[RedisKey(req)].val.IdVal?
  }

  function CreateAnswer(w: World, now: Time, req: Request, t: TxnId, o: CreateOutcomes): Response {
    if !Acceptable(req) then BadRequest
    else if !o.user || !Known(w, req.user) then InvalidUser
    else if Repeated(w, now, req, o.lookup) then AlreadyProcessed(w.store[RedisKey(req)].val.id)
    else if o.insert != Done || t in w.txns then InsertFailed
    else if o.publish == ArrivedUnseen || o.publish == Refused then QueueUnavailable(t)
    else Response.Queued(t)
  }

  function PendingRow(req: Request, reference: string, now: Time): Row {
    Row(req.user, req.kind, req.amount, reference, req.description, now, Pending, now, 0)
  }

  function Remembered(w: World, now: Time, req: Request, t: TxnId, ok: bool): World {
    if req.key == "" || !ok then w else w.(store := w.store[RedisKey(req) := Item(IdVal(t), now + 86_400_000_000_000)])
  }

  function Sent(w: World, m: Message, sending: Sending): World {
    if (sending == Arrived || sending == ArrivedUnseen) && |w.queue| < 100_000 then w.(queue := w.queue + [Json(m)])
    else w
  }

  function AfterCreate(w: World, now: Time, req: Request, t: TxnId, reference: string, o: CreateOutcomes): World {
    if !Acceptable(req) || !o.user || !Known(w, req.user) || Repeated(w, now, req, o.lookup) then w
    else AfterInsert(w, now, req, t, reference, o)
  }

  /** From the insert on. */
  function AfterInsert(w: World, now: Time, req: Request, t: TxnId, reference: string, o: CreateOutcomes): World {
    if o.insert == NotDone || t in w.txns then w
    else
      var inserted := w.(txns := w.txns[t := PendingRow(req, reference, now)]);
      if o.insert == Ambiguous then inserted
      else Sent(Remembered(inserted, now, req, t, o.remember), Message(t, req.user, req.kind, req.amount), o.publish)
  }

  // ---- The consumer --------------------------------------------------------

  /** How each call of a pass turns out. */
  datatype PassOutcomes = PassOutcomes(claim: Outcome, begin: bool, status: bool, balance: bool, commit: Outcome,
                                       deleteBalance: bool, deleteTransaction: bool)

  function AllGood(): PassOutcomes {
    PassOutcomes(Done, true, true, true, Done, true, true)
  }

  /** The row once more written, at time `now`. */
  function Written(txns: map<TxnId, Row>, t: TxnId, status: Status, now: Time): map<TxnId, Row> {
    if t !in txns then txns
    else
      var r := txns[t];
      txns[t := Row(r.user, r.kind, r.amount, r.reference, r.description, r.created, status, now, r.ver + 1)]
  }

  /** Credits add, debits and transfers subtract. */
  function Moved(users: map<UserId, Account>, u: UserId, kind: Kind, amount: int): map<UserId, Account> {
    if u !in users then users
    else
      var a := users[u];
      match kind
      case Credit => users[u := Account(a.balance + amount, a.active, a.ver + 1)]
      case Debit => users[u := Account(a.balance - amount, a.active, a.ver + 1)]
      case Transfer => users[u := Account(a.balance - amount, a.active, a.ver + 1)]
      case Other(_) => users
  }

  predicate ReachesCommit(m: Message, o: PassOutcomes) {
    o.claim == Done && o.begin && o.status && (o.balance || m.kind.Other?)
  }

  predicate Succeeds(m: Message, o: PassOutcomes) {
    ReachesCommit(m, o) && o.commit == Done
  }

  function AfterPass(w: World, now: Time, m: Message, o: PassOutcomes): World {
    var claimed := if o.claim == NotDone then w else w.(txns := Written(w.txns, m.txn, Processing, now));
    if !ReachesCommit(m, o) || o.commit == NotDone then claimed
    else
      var committed := claimed.(txns := Written(claimed.txns, m.txn, Completed, now),
                                users := Moved(claimed.users, m.user, m.kind, m.amount));
      if o.commit == Ambiguous then committed
      else
        committed.(store := committed.store
          - (if o.deleteBalance then {"user:balance:" + m.user.text} else {})
          - (if o.deleteTransaction then {"txn:" + m.txn.text} else {}))
  }

  datatype Pass = Pass(m: Message, o: PassOutcomes)

  function AfterPasses(w: World, now: Time, passes: seq<Pass>): World
    decreases |passes|
  {
    if passes == [] then w
    else AfterPass(AfterPasses(w, now, passes[..|passes| - 1]), now, passes[|passes| - 1].m, passes[|passes| - 1].o)
  }

  /** The messages whose passes succeeded. */
  function Succeeded(passes: seq<Pass>): seq<Message>
    decreases |passes|
  {
    if passes == [] then []
    else
      var last := passes[|passes| - 1];
      Succeeded(passes[..|passes| - 1]) + if Succeeds(last.m, last.o) then [last.m] else []
  }

  lemma PassesSnoc(w: World, now: Time, passes: seq<Pass>, p: Pass)
    ensures AfterPasses(w, now, passes + [p]) == AfterPass(AfterPasses(w, now, passes), now, p.m, p.o)
    ensures Succeeded(passes + [p]) == Succeeded(passes) + if Succeeds(p.m, p.o) then [p.m] else []
  {
    assert (passes + [p])[..|passes|] == passes;
  }

  // ---- CreateTransactionV0 -------------------------------------------------

  datatype SyncOutcomes = SyncOutcomes(user: bool, begin: bool, insert: bool, balance: bool, commit: Outcome)

  predicate SyncReachesCommit(w: World, req: Request, o: SyncOutcomes) {
    Acceptable(req) && o.user && Known(w, req.user) && o.begin && o.insert && o.balance
  }

  function SyncTxns(txns: map<TxnId, Row>, t: TxnId, req: Request, reference: string, now: Time): map<TxnId, Row> {
    txns[t := Row(req.user, req.kind, req.amount, reference, req.description, now, Completed, now, 0)]
  }

  function AfterSync(w: World, now: Time, req: Request, t: TxnId, reference: string, o: SyncOutcomes): World {
    if !SyncReachesCommit(w, req, o) || o.commit == NotDone then w
    else
      w.(txns := SyncTxns(w.txns, t, req, reference, now), users := Moved(w.users, req.user, req.kind, req.amount))
  }

  // ---- Cached reads --------------------------------------------------------

  /** How each of a reader's calls turns out, and how long it waits before its query and its store. */
  datatype ReadOutcomes = ReadOutcomes(probe: bool, query: bool, store: bool, queryWait: Time, storeWait: Time)

  function CacheString(key: Key): string {
    match key
    case TransactionKey(t) => "txn:" + t.text
    case BalanceKey(u) => "user:balance:" + u.text
    case IdempotencyKey(u, k) => "idempotency:" + u.text + ":" + k
  }

  /** The uncached read: every column as the database has it. */
  function Uncached(users: map<UserId, Account>, txns: map<TxnId, Row>, key: Key): Option<CacheValue> {
    match key
    case TransactionKey(t) =>
      if t !in txns then None
      else
        var r := txns[t];
        Some(TxnVal(t,
          Row(r.user, r.kind, r.amount, r.reference, r.description, r.created, r.status, r.updated, r.ver)))
    case BalanceKey(u) => if u !in users then None else Some(BalanceVal(u, users[u].balance, users[u].active))
    case IdempotencyKey(_, _) => None
  }

  predicate HitsCache(w: World, now: Time, key: Key, ok: bool) {
    ok && CacheString(key) in w.store && now <= w.store[CacheString(key)].exp
  }

  function ReadAnswer(w: World, now: Time, key: Key, o: ReadOutcomes): Option<CacheValue> {
    if HitsCache(w, now, key, o.probe) then Some(w.store[CacheString(key)].val)
    else if o.query then Uncached(w.users, w.txns, key) else None
  }

  /** A miss is stored with the configured lifetime, unless the request is more than five seconds old by then. */
  function AfterRead(w: World, now: Time, ttl: Time, key: Key, o: ReadOutcomes): World {
    var found := Uncached(w.users, w.txns, key);
    if HitsCache(w, now, key, o.probe) || !o.query || found.None? then w
    else if !o.store || o.queryWait + o.storeWait > 5_000_000_000 then w
    else
      w.(store := w.store[CacheString(key) := Item(found.value, now + o.queryWait + o.storeWait + ttl)])
  }

  function TimeTaken(w: World, now: Time, key: Key, o: ReadOutcomes): Time {
    if HitsCache(w, now, key, o.probe) then 0
    else if !o.query || Uncached(w.users, w.txns, key).None? then o.queryWait
    else o.queryWait + o.storeWait
  }
}

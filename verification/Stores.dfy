/** One atomic operation of each store, as a function of the store's value. */
module Stores {
  import opened Domain

  // ---- PostgreSQL ----------------------------------------------------------

  function Lookup<K, V>(m: map<K, V>, k: K): Option<V> {
    if k in m then Some(m[k]) else None
  }

  predicate UserActive(db: Db, u: UserId) {
    u in db.users && db.users[u].active
  }

  /** The foreign key and the CHECK constraints of `transactions`; ids are fresh UUIDs. */
  predicate Insertable(db: Db, t: TxnId, req: Request) {
    t !in db.txns && req.user in db.users && Listed(req.kind) && req.amount > 0
  }

  function NewRow(req: Request, reference: string, status: Status, now: Time): Row {
    Row(req.user, req.kind, req.amount, reference, req.description, now, status, now, 0)
  }

  function InsertRow(db: Db, t: TxnId, req: Request, reference: string, status: Status, now: Time): Db {
    db.(txns := db.txns[t := NewRow(req, reference, status, now)])
  }

  function WithStatus(row: Row, status: Status, now: Time): Row {
    row.(status := status, updated := now, ver := row.ver + 1)
  }

  /** `UPDATE transactions SET status = 'processing'`: no row, no effect and no error. */
  function MarkProcessing(db: Db, t: TxnId, now: Time): Db {
    if t in db.txns then db.(txns := db.txns[t := WithStatus(db.txns[t], Processing, now)]) else db
  }

  /** What a serializable transaction sees of the two rows it updates. */
  datatype Snapshot = Snapshot(row: Option<Row>, account: Option<Account>, at: Time)

  function TakeSnapshot(db: Db, t: TxnId, u: UserId, now: Time): Snapshot {
    Snapshot(Lookup(db.txns, t), Lookup(db.users, u), now)
  }

  predicate RowUnchanged(db: Db, t: TxnId, seen: Option<Row>) {
    match seen
    case None => t !in db.txns
    case Some(row) => t in db.txns && db.txns[t].ver == row.ver
  }

  predicate AccountUnchanged(db: Db, u: UserId, seen: Option<Account>) {
    match seen
    case None => u !in db.users
    case Some(account) => u in db.users && db.users[u].ver == account.ver
  }

  /** Commit-time validation: every row the transaction wrote still has the version its snapshot saw. */
  predicate Validates(db: Db, m: Message, snap: Snapshot) {
    RowUnchanged(db, m.txn, snap.row) && (Listed(m.kind) ==> AccountUnchanged(db, m.user, snap.account))
  }

  /** The write set of a consumer's transaction, computed from its snapshot alone. */
  function InstallCompleted(db: Db, t: TxnId, snap: Snapshot): Db {
    match snap.row
    case None => db
    case Some(row) => db.(txns := db.txns[t := WithStatus(row, Completed, snap.at)])
  }

  function InstallBalance(db: Db, u: UserId, delta: int, seen: Option<Account>): Db {
    match seen
    case None => db
    case Some(account) =>
      db.(users := db.users[u := account.(balance := account.balance + delta, ver := account.ver + 1)])
  }

  function InstallPass(db: Db, m: Message, snap: Snapshot): Db {
    var done := InstallCompleted(db, m.txn, snap);
    if Listed(m.kind) then InstallBalance(done, m.user, Delta(m.kind, m.amount), snap.account) else done
  }

  /** The synchronous transaction: insert a completed row and move the balance. */
  function InstallSync(db: Db, t: TxnId, req: Request, reference: string, at: Time, seen: Option<Account>): Db {
    InstallBalance(InsertRow(db, t, req, reference, Completed, at), req.user, Delta(req.kind, req.amount), seen)
  }

  /** What a read of the row behind a key returns (`sql.ErrNoRows` is None). */
  function ReadFor(db: Db, key: Key): Option<CacheValue> {
    match key
    case TransactionKey(t) => if t in db.txns then Some(TxnVal(t, db.txns[t])) else None
    case BalanceKey(u) => if u in db.users then Some(BalanceVal(u, db.users[u].balance, db.users[u].active)) else None
    case IdempotencyKey(_, _) => None
  }

  // ---- Redis ---------------------------------------------------------------

  predicate Live(cache: Cache, k: Key, now: Time) {
    k in cache && now <= cache[k].exp
  }

  /** `cache.Get`: an error and an expired key both read as a miss. */
  function CacheGet(cache: Cache, k: Key, now: Time, ok: bool): Option<CacheValue> {
    if ok && Live(cache, k, now) then Some(cache[k].val) else None
  }

  function CacheDelete(cache: Cache, k: Key): Cache {
    cache - {k}
  }

  // ---- RabbitMQ ------------------------------------------------------------

  /** `x-max-length` with `x-overflow: reject-publish`: a full queue drops what is published. */
  const MAX_LENGTH: nat := 100000

  predicate QueueFull(ready: seq<Message>) {
    |ready| >= MAX_LENGTH
  }
}

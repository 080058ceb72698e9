/** The entities the service moves between PostgreSQL, Redis and RabbitMQ. */
module Domain {

  datatype Option<+T> = None | Some(value: T)

  datatype UserId = UserId(text: string)
  datatype TxnId = TxnId(text: string)

  /** Wall-clock nanoseconds since an arbitrary origin. */
  type Time = nat

  const SECOND: Time := 1_000_000_000

  /** The `type` column.  `Other` is any string the request binding would refuse. */
  datatype Kind = Credit | Debit | Transfer | Other(name: string)

  datatype Status = Pending | Processing | Completed | Failed

  /** A request body.  Amounts are whole cents; `key` is "" when no idempotency key was sent. */
  datatype Request = Request(user: UserId, kind: Kind, amount: int, description: string, key: string)

  /** A row of `transactions`; `ver` counts the committed writes to it (PostgreSQL's row versions). */
  datatype Row = Row(user: UserId, kind: Kind, amount: int, reference: string, description: string,
                     created: Time, status: Status, updated: Time, ver: nat)

  /** A row of `users`. */
  datatype Account = Account(balance: int, active: bool, ver: nat)

  datatype Db = Db(users: map<UserId, Account>, txns: map<TxnId, Row>)

  /** The fields of a queue message that the consumer acts on. */
  datatype Message = Message(txn: TxnId, user: UserId, kind: Kind, amount: int)

  /** The three families of Redis keys (CacheKeys relates them to their strings). */
  datatype Key = TransactionKey(txn: TxnId) | BalanceKey(user: UserId) | IdempotencyKey(owner: UserId, key: string)

  /** What a key holds: a transaction id, a transaction response or a balance response. */
  datatype CacheValue =
    | IdVal(id: TxnId)
    | TxnVal(txn: TxnId, row: Row)
    | BalanceVal(user: UserId, balance: int, active: bool)

  /** A Redis entry.  `exp` is its expiry; the rest is history no step reads:
      the step and time at which the value was read from the database and the step at which it was stored. */
  datatype Entry = Entry(val: CacheValue, exp: Time, readStep: nat, readTime: Time, setStep: nat)

  type Cache = map<Key, Entry>

  /** How a database write ended: applied and reported, applied but reported as an error, or not applied. */
  datatype Outcome = Done | Ambiguous | NotDone

  /** How a publish ended: the broker has the message and the call succeeded or reported an error, or the broker
      does not have it and the call succeeded (without confirms a message lost on the way goes unnoticed) or reported
      an error. */
  datatype Sending = Arrived | ArrivedUnseen | Vanished | Refused

  predicate Reported(sending: Sending) {
    sending.ArrivedUnseen? || sending.Refused?
  }

  /** The `oneof=credit debit transfer` binding. */
  predicate Listed(kind: Kind) {
    !kind.Other?
  }

  /** What a transaction adds to its user's balance: credits add, debits and transfers subtract. */
  function Delta(kind: Kind, amount: int): int {
    match kind
    case Credit => amount
    case Debit => -amount
    case Transfer => -amount
    case Other(_) => 0
  }

  /** Request binding: a listed type and an amount above zero. */
  predicate Bound(req: Request) {
    Listed(req.kind) && req.amount > 0
  }

  function MessageOf(t: TxnId, req: Request): Message {
    Message(t, req.user, req.kind, req.amount)
  }

  /** The row carries exactly what the request asked for. */
  predicate RowMatches(row: Row, req: Request) {
    row.user == req.user && row.kind == req.kind && row.amount == req.amount && row.description == req.description
  }

  /** The columns no statement of the service ever updates. */
  predicate SameFixedColumns(a: Row, b: Row) {
    && a.user == b.user && a.kind == b.kind && a.amount == b.amount
    && a.reference == b.reference && a.description == b.description && a.created == b.created
  }
}

/** The three stores as the service's clients see them: objects changed in place, one operation at a time. */
module Services {
  import opened Domain
  import opened Stores
  import opened CacheKeys

  /** The primary database.  `outcome` says whether a statement is applied and whether its result gets back. */
  class Postgres {
    var users: map<UserId, Account>
    var txns: map<TxnId, Row>

    function Value(): Db
      reads this
    {
      Db(users, txns)
    }

    method UserExists(u: UserId, ok: bool) returns (known: bool)
      ensures known <==> ok && UserActive(Value(), u)
    {
      if ok && u in users {
        return users[u].active;
      }
      return false;
    }

    method InsertPending(t: TxnId, req: Request, reference: string, now: Time, outcome: Outcome) returns (err: bool)
      modifies this
      ensures
        var refused := t in old(txns) || req.user !in old(users) || req.kind.Other? || req.amount <= 0;
        && refused == !old(Insertable(Value(), t, req))
        && (err <==> !outcome.Done? || refused)
        && Value() == if outcome.NotDone? || refused then old(Value())
                      else InsertRow(old(Value()), t, req, reference, Pending, now)
    {
      if outcome.NotDone? || t in txns || req.user !in users || !Listed(req.kind) || req.amount <= 0 {
        return true;
      }
      txns := txns[t := Row(req.user, req.kind, req.amount, reference, req.description, now, Pending, now, 0)];
      return outcome.Ambiguous?;
    }

    method SetProcessing(t: TxnId, now: Time, outcome: Outcome) returns (err: bool)
      modifies this
      ensures err <==> !outcome.Done?
      ensures Value() == if outcome.NotDone? then old(Value()) else MarkProcessing(old(Value()), t, now)
    {
      if outcome.NotDone? {
        return true;
      }
      if t in txns {
        var row := txns[t];
        txns := txns[t := row.(status := Processing, updated := now, ver := row.ver + 1)];
      }
      return outcome.Ambiguous?;
    }

    method Select(key: Key) returns (found: Option<CacheValue>)
      ensures found == ReadFor(Value(), key)
    {
      match key
      case TransactionKey(t) =>
        if t in txns { return Some(TxnVal(t, txns[t])); }
        return None;
      case BalanceKey(u) =>
        if u in users { return Some(BalanceVal(u, users[u].balance, users[u].active)); }
        return None;
      case IdempotencyKey(_, _) =>
        return None;
    }
  }

  /** A serializable transaction over one row of `transactions` and one of `users`: statements change private copies,
      Commit installs them if the rows still have the versions the snapshot saw. */
  class Tx {
    const pg: Postgres
    const txn: TxnId
    const user: UserId
    const snap: Snapshot
    var row: Option<Row>
    var account: Option<Account>
    var wroteRow: bool
    var wroteAccount: bool

    constructor (pg: Postgres, txn: TxnId, user: UserId, now: Time)
      ensures this.pg == pg && this.txn == txn && this.user == user
      ensures snap == TakeSnapshot(pg.Value(), txn, user, now)
      ensures row == snap.row && account == snap.account && !wroteRow && !wroteAccount
    {
      this.pg, this.txn, this.user := pg, txn, user;
      var seenRow := if txn in pg.txns then Some(pg.txns[txn]) else None;
      var seenAccount := if user in pg.users then Some(pg.users[user]) else None;
      snap := Snapshot(seenRow, seenAccount, now);
      row, account, wroteRow, wroteAccount := seenRow, seenAccount, false, false;
    }

    /** `UPDATE transactions SET status = 'completed'`. */
    method SetCompleted()
      requires row == snap.row
      modifies this`row, this`wroteRow
      ensures wroteRow
      ensures row == if snap.row.Some? then Some(WithStatus(snap.row.value, Completed, snap.at)) else None
    {
      if row.Some? {
        row := Some(row.value.(status := Completed, updated := snap.at, ver := row.value.ver + 1));
      }
      wroteRow := true;
    }

    /** `INSERT INTO transactions ... 'completed'`. */
    method InsertCompleted(req: Request, reference: string)
      requires row == snap.row == None
      modifies this`row, this`wroteRow
      ensures wroteRow && row == Some(NewRow(req, reference, Completed, snap.at))
    {
      row := Some(Row(req.user, req.kind, req.amount, reference, req.description, snap.at, Completed, snap.at, 0));
      wroteRow := true;
    }

    /** `UPDATE users SET balance = balance ± amount`. */
    method AddToBalance(delta: int)
      requires account == snap.account
      modifies this`account, this`wroteAccount
      ensures wroteAccount
      ensures account == if snap.account.None? then None
                         else var a := snap.account.value;
                              Some(a.(balance := a.balance + delta, ver := a.ver + 1))
    {
      if account.Some? {
        account := Some(account.value.(balance := account.value.balance + delta, ver := account.value.ver + 1));
      }
      wroteAccount := true;
    }

    /** Installs the private copies, or fails and changes nothing. */
    method Commit(outcome: Outcome) returns (err: bool)
      modifies pg
      ensures var valid := (wroteRow ==> RowUnchanged(old(pg.Value()), txn, snap.row))
                        && (wroteAccount ==> AccountUnchanged(old(pg.Value()), user, snap.account));
              && (err <==> !outcome.Done? || !valid)
              && pg.Value() ==
                   if outcome.NotDone? || !valid then old(pg.Value())
                   else Db(if wroteAccount && account.Some? then old(pg.users)[user := account.value]
                           else old(pg.users),
                           if wroteRow && row.Some? then old(pg.txns)[txn := row.value] else old(pg.txns))
    {
      if outcome.NotDone? {
        return true;
      }
      if wroteRow {
        var same :=
          match snap.row case None => txn !in pg.txns case Some(r) => txn in pg.txns && pg.txns[txn].ver == r.ver;
        if !same { return true; }
      }
      if wroteAccount {
        var same :=
          match snap.account
          case None => user !in pg.users
          case Some(a) => user in pg.users && pg.users[user].ver == a.ver;
        if !same { return true; }
      }
      if wroteRow && row.Some? {
        pg.txns := pg.txns[txn := row.value];
      }
      if wroteAccount && account.Some? {
        pg.users := pg.users[user := account.value];
      }
      return outcome.Ambiguous?;
    }
  }

  /** Redis, with string keys. */
  class Redis {
    var store: map<string, Item>

    method Set(key: string, val: CacheValue, ttl: Time, now: Time, ok: bool)
      modifies this
      ensures store == if ok then old(store)[key := Item(val, now + ttl)] else old(store)
    {
      if ok {
        store := store[key := Item(val, now + ttl)];
      }
    }

    method Get(key: string, now: Time, ok: bool) returns (hit: Option<CacheValue>)
      ensures hit == StoreGet(store, key, now, ok)
    {
      if ok && key in store && now <= store[key].exp {
        return Some(store[key].val);
      }
      return None;
    }

    method Delete(key: string, ok: bool)
      modifies this
      ensures store == if ok then old(store) - {key} else old(store)
    {
      if ok {
        store := store - {key};
      }
    }
  }

  /** A message body: what `json.Unmarshal` makes of it, or not. */
  datatype Body = Json(m: Message) | Malformed

  /** The messages among the bodies. */
  function Parsed(bodies: seq<Body>): seq<Message>
    decreases |bodies|
  {
    if bodies == [] then []
    else Parsed(bodies[..|bodies| - 1]) + match bodies[|bodies| - 1] case Json(m) => [m] case Malformed => []
  }

  lemma {:induction false} ParsedConcat(a: seq<Body>, b: seq<Body>)
    ensures Parsed(a + b) == Parsed(a) + Parsed(b)
    decreases |b|
  {
    if b == [] {
      assert a + b == a;
    } else {
      assert (a + b)[..|a + b| - 1] == a + b[..|b| - 1];
      ParsedConcat(a, b[..|b| - 1]);
    }
  }

  lemma ParsedOne(body: Body)
    ensures Parsed([body]) == match body case Json(m) => [m] case Malformed => []
  {
    assert [body][..0] == [];
  }

  lemma {:induction false} ParsedShorter(bodies: seq<Body>)
    ensures |Parsed(bodies)| <= |bodies|
    decreases |bodies|
  {
    if bodies != [] { ParsedShorter(bodies[..|bodies| - 1]); }
  }

  /** What becomes of a publish that arrives at a full queue: it is dropped, and the publisher is told no more. */
  function Dropped(sending: Sending): Sending {
    match sending
    case Arrived => Vanished
    case ArrivedUnseen => Refused
    case _ => sending
  }

  /** The broker's queue: `x-max-length` with `reject-publish`, no publisher confirms.  `unacked` is what it has handed
      to the consumer and not had answered; the client's buffer holds the same. */
  class RabbitMQ {
    var ready: seq<Body>
    var unacked: seq<Body>

    method Publish(m: Message, sending: Sending) returns (err: bool)
      modifies `ready
      ensures err <==> Reported(sending)
      ensures ready ==
                if sending.Vanished? || sending.Refused? || |old(ready)| >= MAX_LENGTH then old(ready)
                else old(ready) + [Json(m)]
    {
      if sending.Arrived? || sending.ArrivedUnseen? {
        if |ready| < MAX_LENGTH {
          ready := ready + [Json(m)];
        }
      }
      return sending.ArrivedUnseen? || sending.Refused?;
    }

    method Deliver()
      requires ready != []
      modifies this
      ensures unacked == old(unacked) + [old(ready)[0]] && ready == old(ready)[1..]
    {
      unacked := unacked + [ready[0]];
      ready := ready[1..];
    }

    /** `Ack`, and `Nack` without requeue. */
    method Settle()
      requires unacked != []
      modifies `unacked
      ensures unacked == old(unacked)[1..]
    {
      unacked := unacked[1..];
    }

    /** `Nack` with requeue. */
    method Requeue()
      requires unacked != []
      modifies this
      ensures ready == [old(unacked)[0]] + old(ready) && unacked == old(unacked)[1..]
    {
      ready := [unacked[0]] + ready;
      unacked := unacked[1..];
    }
  }
}

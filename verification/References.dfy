/** Referential integrity across the three stores. */
module References {
  import opened Domain
  import opened Stores
  import opened Protocol
  import opened Frames
  import opened Traces
  import opened Ledger

  /** The message a consumer is working on. */
  function InProgress(pc: ConsumerPc): Option<Message> {
    match pc
    case Idle => None
    case Claimed(m) => Some(m)
    case Begun(m, _) => Some(m)
    case StatusSet(m, _) => Some(m)
    case BalanceSet(m, _) => Some(m)
    case DropBalance(m, _) => Some(m)
    case DropTransaction(m) => Some(m)
    case ToAck(m) => Some(m)
    case ToNack(m) => Some(m)
  }

  /** The message names an existing row of an existing user, and agrees with it. */
  ghost predicate Refers(db: Db, m: Message) {
    && m.txn in db.txns && m.user in db.users && Listed(m.kind)
    && db.txns[m.txn].user == m.user && db.txns[m.txn].kind == m.kind && db.txns[m.txn].amount == m.amount
  }

  ghost predicate SnapshotFull(pc: ConsumerPc) {
    pc.Begun? || pc.StatusSet? || pc.BalanceSet? ==> pc.snap.row.Some? && pc.snap.account.Some?
  }

  ghost predicate ConsumerRefers(db: Db, k: Consumer) {
    && (forall m :: m in k.inbox ==> Refers(db, m))
    && (InProgress(k.pc).Some? ==> Refers(db, InProgress(k.pc).value))
    && SnapshotFull(k.pc)
  }

  /** An id in an answer names a row of the requesting user; that of a new transaction, the row asked for. */
  ghost predicate ReplyRefers(db: Db, k: Handler) {
    match k.pc
    case Replied(AlreadyProcessed(id)) => id in db.txns && db.txns[id].user == k.req.user
    case Replied(Queued(id)) => id in db.txns && RowMatches(db.txns[id], k.req)
    case Replied(QueueUnavailable(id)) => id in db.txns && RowMatches(db.txns[id], k.req)
    case _ => true
  }

  /** A row the handler still has to publish is the row its request asked for. */
  ghost predicate HandlerRefers(db: Db, k: Handler) {
    && ReplyRefers(db, k)
    && (!k.pc.Replied? && !k.pc.Died? ==> Bound(k.req))
    && (InHand(k.pc).Some? ==>
          var t := InHand(k.pc).value;
          t in db.txns && RowMatches(db.txns[t], k.req) && k.req.user in db.users)
  }

  /** A cached value is of its key's kind and about a row that exists: an idempotency key names a transaction of
      its own user, a cached transaction agrees with the row on every column that no statement updates. */
  ghost predicate ValueRefers(db: Db, key: Key, val: CacheValue) {
    match key
    case IdempotencyKey(u, _) => val.IdVal? && val.id in db.txns && db.txns[val.id].user == u
    case TransactionKey(t) => val.TxnVal? && val.txn == t && t in db.txns && SameFixedColumns(val.row, db.txns[t])
    case BalanceKey(u) =>
      val.BalanceVal? && val.user == u && u in db.users && val.active == db.users[u].active
  }

  ghost predicate ReaderRefers(db: Db, rd: Reader) {
    && !rd.key.IdempotencyKey?
    && match rd.pc
       case Store(val, _, _) => ValueRefers(db, rd.key, val)
       case Hit(val) => ValueRefers(db, rd.key, val)
       case Miss(val) => ValueRefers(db, rd.key, val)
       case _ => true
  }

  ghost predicate AcceptedRefers(db: Db, a: Accepted) {
    a.txn in db.txns && RowMatches(db.txns[a.txn], a.req) && Bound(a.req) && a.req.user in db.users
  }

  ghost predicate QueueRefers(s: State) {
    && (forall m :: m in s.ready ==> Refers(s.db, m))
    && (forall c :: 0 <= c < |s.consumers| ==> ConsumerRefers(s.db, s.consumers[c]))
  }

  ghost predicate ReferenceInv(s: State) {
    && QueueRefers(s)
    && (forall h :: 0 <= h < |s.handlers| ==> HandlerRefers(s.db, s.handlers[h]))
    && (forall k :: k in s.cache ==> ValueRefers(s.db, k, s.cache[k].val))
    && (forall r :: 0 <= r < |s.readers| ==> ReaderRefers(s.db, s.readers[r]))
    && (forall i :: 0 <= i < |s.hist.accepted| ==> AcceptedRefers(s.db, s.hist.accepted[i]))
    && (forall v :: 0 <= v < |s.syncs| ==> s.syncs[v].pc.SyncRejected? || Bound(s.syncs[v].req))
  }

  /** References survive whatever happens to the rows they name. */
  lemma ReferencesStay(a: Db, s: State)
    requires ReferenceInv(s.(db := a)) && DbAdvances(a, s.db)
    ensures ReferenceInv(s)
  {
    forall c | 0 <= c < |s.consumers| ensures ConsumerRefers(s.db, s.consumers[c]) {
      assert ConsumerRefers(a, s.consumers[c]);
    }
    forall h | 0 <= h < |s.handlers| ensures HandlerRefers(s.db, s.handlers[h]) {
      assert HandlerRefers(a, s.handlers[h]);
    }
    forall k | k in s.cache ensures ValueRefers(s.db, k, s.cache[k].val) {
      assert ValueRefers(a, k, s.cache[k].val);
    }
    forall r | 0 <= r < |s.readers| ensures ReaderRefers(s.db, s.readers[r]) {
      assert ReaderRefers(a, s.readers[r]);
    }
    forall i | 0 <= i < |s.hist.accepted| ensures AcceptedRefers(s.db, s.hist.accepted[i]) {
      assert AcceptedRefers(a, s.hist.accepted[i]);
    }
  }

  lemma InsertRefs(s: State, h: nat, t: TxnId, reference: string, outcome: Outcome)
    requires ReferenceInv(s) && h < |s.handlers| && s.handlers[h].pc.Insert?
    requires DbAdvances(s.db, HandlerInsert(s, h, t, reference, outcome).db)
    ensures ReferenceInv(HandlerInsert(s, h, t, reference, outcome))
  {
    hide HandlerInsert, DbAdvances, Refers, ConsumerRefers, ValueRefers, ReaderRefers;
    var s' := HandlerInsert(s, h, t, reference, outcome);
    InsertFrame(s, h, t, reference, outcome);
    assert HandlerRefers(s.db, s.handlers[h]);
    assert ReferenceInv(s.(db := s'.db)) by { ReferencesStay(s.db, s.(db := s'.db)); }
  }

  lemma PublishRefs(s: State, h: nat, sending: Sending)
    requires ReferenceInv(s) && h < |s.handlers| && s.handlers[h].pc.Publish?
    ensures ReferenceInv(HandlerPublish(s, h, sending))
  {}

  lemma HandlerRefs(s: State, h: nat, e: HandlerEvent)
    requires ReferenceInv(s) && h < |s.handlers| && DbAdvances(s.db, StepHandler(s, h, e).db)
    ensures ReferenceInv(StepHandler(s, h, e))
  {
    hide HandlerInsert, DbAdvances, HandlerPublish, Refers, ConsumerRefers, ReaderRefers, AcceptedRefers;
    HandlerFrame(s, h, e);
    match e
    case DoInsert(t, reference, outcome) =>
      if s.handlers[h].pc.Insert? { InsertRefs(s, h, t, reference, outcome); }
    case DoPublish(sending) =>
      if s.handlers[h].pc.Publish? { PublishRefs(s, h, sending); }
    case _ =>
      assert HandlerRefers(s.db, s.handlers[h]);
  }

  lemma ConsumerQueueRefs(s: State, c: nat, e: ConsumerEvent)
    requires QueueRefers(s) && c < |s.consumers|
    ensures QueueRefers(StepConsumer(s, c, e).(db := s.db))
  {
    hide MarkProcessing, InstallPass, Validates, Delta, Refers, CacheDelete, StepConsumer;
    ConsumerFrame(s, c, e);
    assert ConsumerRefers(s.db, s.consumers[c]);
    OwnRefers(s, c, e);
  }

  // Where the messages of a consumer's step come from.

  lemma InboxComesFrom(s: State, c: nat, e: ConsumerEvent)
    requires c < |s.consumers|
    ensures forall m :: m in StepConsumer(s, c, e).consumers[c].inbox ==> m in s.consumers[c].inbox || m in s.ready
  {}

  lemma ReadyComesFrom(s: State, c: nat, e: ConsumerEvent)
    requires c < |s.consumers|
    ensures forall m :: m in StepConsumer(s, c, e).ready ==>
              m in s.ready || m in s.consumers[c].inbox || InProgress(s.consumers[c].pc) == Some(m)
  {}

  lemma WorkComesFrom(s: State, c: nat, e: ConsumerEvent)
    requires c < |s.consumers|
    ensures
      var work := InProgress(StepConsumer(s, c, e).consumers[c].pc);
      work.Some? ==> work == InProgress(s.consumers[c].pc) || work.value in s.consumers[c].inbox
  {}

  /** A snapshot taken for a message that refers holds both rows. */
  lemma SnapshotFinds(s: State, c: nat, e: ConsumerEvent)
    requires c < |s.consumers| && SnapshotFull(s.consumers[c].pc)
    requires s.consumers[c].pc.Claimed? ==> Refers(s.db, s.consumers[c].pc.m)
    ensures SnapshotFull(StepConsumer(s, c, e).consumers[c].pc)
  {
    hide MarkProcessing, InstallPass, Validates, Delta, CacheDelete, Listed;
  }

  /** What a consumer takes on, hands back or starts on still refers. */
  lemma OwnRefers(s: State, c: nat, e: ConsumerEvent)
    requires QueueRefers(s) && c < |s.consumers|
    ensures ConsumerRefers(s.db, StepConsumer(s, c, e).consumers[c])
    ensures forall m :: m in StepConsumer(s, c, e).ready ==> Refers(s.db, m)
  {
    hide StepConsumer, Refers;
    assert ConsumerRefers(s.db, s.consumers[c]);
    InboxComesFrom(s, c, e);
    ReadyComesFrom(s, c, e);
    WorkComesFrom(s, c, e);
    SnapshotFinds(s, c, e);
  }

  lemma ConsumerRefs(s: State, c: nat, e: ConsumerEvent)
    requires ReferenceInv(s) && c < |s.consumers| && DbAdvances(s.db, StepConsumer(s, c, e).db)
    ensures ReferenceInv(StepConsumer(s, c, e))
  {
    hide StepConsumer;
    ConsumerFrame(s, c, e);
    ConsumerStores(s, c, e);
    ConsumerQueueRefs(s, c, e);
    ReferencesStay(s.db, StepConsumer(s, c, e));
  }

  lemma SyncRefs(s: State, v: nat, e: SyncEvent)
    requires ReferenceInv(s) && v < |s.syncs| && DbAdvances(s.db, StepSync(s, v, e).db)
    ensures ReferenceInv(StepSync(s, v, e))
  {
    var s' := StepSync(s, v, e);
    SyncFrame(s, v, e);
    match e
    case DoSyncCommit(t, reference, outcome) =>
      assert ReferenceInv(s.(db := s'.db)) by { ReferencesStay(s.db, s.(db := s'.db)); }
    case _ =>
  }

  lemma ReaderRefs(s: State, r: nat, e: ReaderEvent)
    requires ReferenceInv(s) && r < |s.readers|
    ensures ReferenceInv(StepReader(s, r, e))
  {}

  lemma ReferencesKept(s: State, e: Event)
    requires ReferenceInv(s) && SnapshotsHeld(s)
    ensures ReferenceInv(Next(s, e))
  {
    hide StepHandler, StepConsumer, StepSync, StepReader, DbAdvances;
    StepAdvances(s, e);
    match e
    case OnHandler(h, he) => if h < |s.handlers| { HandlerRefs(s, h, he); }
    case OnConsumer(c, ce) => if c < |s.consumers| { ConsumerRefs(s, c, ce); }
    case OnSync(v, ve) => if v < |s.syncs| { SyncRefs(s, v, ve); }
    case OnReader(r, re) => if r < |s.readers| { ReaderRefs(s, r, re); }
    case _ =>
  }

  /** In every reachable state every queued, unacked or in-progress message and every Redis entry names an
      existing row of the same user with the same type, so the consumer's switch always finds its case. */
  lemma {:induction false} ReferencesHold(tr: seq<State>, es: seq<Event>, i: nat)
    requires Behavior(tr, es) && i <= |es|
    ensures ReferenceInv(tr[i])
    decreases i
  {
    hide Next;
    if i > 0 {
      ReferencesHold(tr, es, i - 1);
      LedgerHolds(tr, es, i - 1);
      ReferencesKept(tr[i - 1], es[i - 1]);
      assert tr[i - 1 + 1] == Next(tr[i - 1], es[i - 1]);
    }
  }

  /** Whatever `GetTransaction` and `GetUserBalance` answer, the fixed columns they report are those the uncached
      read of the same key would report at that moment; only status, updated_at and balance may lag. */
  lemma AnswersAgreeWithUncachedRead(tr: seq<State>, es: seq<Event>, i: nat, r: nat)
    requires Behavior(tr, es) && i <= |es| && r < |tr[i].readers|
    ensures
      var rd := tr[i].readers[r];
      rd.pc.Hit? || rd.pc.Miss? ==>
        && ReadFor(tr[i].db, rd.key).Some?
        && var now := ReadFor(tr[i].db, rd.key).value;
           && (rd.key.TransactionKey? ==>
                 rd.pc.val.TxnVal? && rd.pc.val.txn == now.txn && SameFixedColumns(rd.pc.val.row, now.row))
           && (rd.key.BalanceKey? ==>
                 rd.pc.val.BalanceVal? && rd.pc.val.user == now.user && rd.pc.val.active == now.active)
  {
    ReferencesHold(tr, es, i);
    assert ReaderRefers(tr[i].db, tr[i].readers[r]);
  }

  /** The id in an answer of `CreateTransaction` names an existing row of the requesting user; when the answer is not
      that of a duplicate, that row is the one the request asked for. */
  lemma AnswersNameOwnRows(tr: seq<State>, es: seq<Event>, i: nat, h: nat)
    requires Behavior(tr, es) && i <= |es| && h < |tr[i].handlers| && tr[i].handlers[h].pc.Replied?
    ensures
      var db, req := tr[i].db, tr[i].handlers[h].req;
      match tr[i].handlers[h].pc.response
      case AlreadyProcessed(id) => id in db.txns && db.txns[id].user == req.user
      case Queued(id) => id in db.txns && RowMatches(db.txns[id], req)
      case QueueUnavailable(id) => id in db.txns && RowMatches(db.txns[id], req)
      case _ => true
  {
    ReferencesHold(tr, es, i);
    assert HandlerRefers(tr[i].db, tr[i].handlers[h]);
  }

  /** The branch that runs no balance statement is unreachable. */
  lemma EveryPassMovesTheBalance(tr: seq<State>, es: seq<Event>, i: nat, c: nat)
    requires Behavior(tr, es) && i <= |es| && c < |tr[i].consumers|
    requires tr[i].consumers[c].pc.BalanceSet?
    ensures
      var pc := tr[i].consumers[c].pc;
      Listed(pc.m.kind) && pc.m.user in tr[i].db.users && pc.snap.account.Some? && pc.snap.row.Some?
  {
    ReferencesHold(tr, es, i);
    LedgerHolds(tr, es, i);
    assert ConsumerRefers(tr[i].db, tr[i].consumers[c]);
    assert ConsumerSnapshot(tr[i].db, tr[i].consumers[c].pc);
  }

  // ---- Amounts -------------------------------------------------------------

  /** A logged change is its row's amount, added for a credit and subtracted for a debit or a transfer. */
  ghost predicate LoggedAmount(db: Db, c: Commit) {
    && c.txn in db.txns && db.txns[c.txn].user == c.user
    && (db.txns[c.txn].kind == Credit || db.txns[c.txn].kind == Debit || db.txns[c.txn].kind == Transfer)
    && c.delta == if db.txns[c.txn].kind == Credit then db.txns[c.txn].amount else -db.txns[c.txn].amount
  }

  lemma CommitAmount(s: State, c: nat, e: ConsumerEvent, x: Commit)
    requires QueueRefers(s) && c < |s.consumers| && x in StepConsumer(s, c, e).hist.log && x !in s.hist.log
    ensures LoggedAmount(s.db, x)
  {
    hide ConsumerCommit, InstallPass, Validates;
    assert ConsumerRefers(s.db, s.consumers[c]);
    ConsumerStores(s, c, e);
    if e.DoCommit? && s.consumers[c].pc.BalanceSet? { CommitFrame(s, c, e.outcome); }
  }

  lemma SyncAmount(s: State, v: nat, e: SyncEvent, x: Commit)
    requires v < |s.syncs| && x in StepSync(s, v, e).hist.log && x !in s.hist.log
    ensures LoggedAmount(StepSync(s, v, e).db, x)
  {
    hide StepSync;
    SyncFrame(s, v, e);
  }

  lemma NewAmount(s: State, e: Event, x: Commit)
    requires QueueRefers(s) && x in Next(s, e).hist.log && x !in s.hist.log
    ensures LoggedAmount(s.db, x) || LoggedAmount(Next(s, e).db, x)
  {
    hide StepHandler, StepConsumer, StepSync, StepReader, LoggedAmount, QueueRefers;
    match e
    case OnHandler(h, he) => if h < |s.handlers| { HandlerFrame(s, h, he); }
    case OnConsumer(c, ce) => if c < |s.consumers| { CommitAmount(s, c, ce, x); }
    case OnSync(v, ve) => if v < |s.syncs| { SyncAmount(s, v, ve, x); }
    case OnReader(r, re) => if r < |s.readers| { ReaderFrame(s, r, re); }
    case _ =>
  }

  /** In every reachable state every change in the ledger is its row's signed amount. */
  lemma {:induction false} LedgerAmounts(tr: seq<State>, es: seq<Event>, i: nat, x: Commit)
    requires Behavior(tr, es) && i <= |es| && x in tr[i].hist.log
    ensures
      var db := tr[i].db;
      && x.txn in db.txns && db.txns[x.txn].user == x.user
      && (db.txns[x.txn].kind == Credit || db.txns[x.txn].kind == Debit || db.txns[x.txn].kind == Transfer)
      && x.delta == if db.txns[x.txn].kind == Credit then db.txns[x.txn].amount else -db.txns[x.txn].amount
    decreases i
  {
    hide Next, QueueRefers, SnapshotsHeld;
    if i > 0 {
      var s, e := tr[i - 1], es[i - 1];
      assert tr[i - 1 + 1] == Next(s, e);
      ReferencesHold(tr, es, i - 1);
      LedgerHolds(tr, es, i - 1);
      SnapshotsKept(s, e);
      NextDb(s, e);
      if x in s.hist.log { LedgerAmounts(tr, es, i - 1, x); } else { NewAmount(s, e, x); }
    }
  }

  lemma NextDb(s: State, e: Event)
    ensures Next(s, e).db == Step(s, e).db
  {}
}

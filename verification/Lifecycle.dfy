/** What happens to a row's status over a run. */
module Lifecycle {
  import opened Domain
  import opened Stores
  import opened Protocol
  import opened Frames
  import opened Traces
  import opened References
  import opened Delivery

  /** How many consumer passes for transaction `t` have committed. */
  function Passes(log: seq<Commit>, t: TxnId): nat
    decreases |log|
  {
    if log == [] then 0
    else
      var last := log[|log| - 1];
      Passes(log[..|log| - 1], t) + if !last.sync && last.txn == t then 1 else 0
  }

  lemma PassesSnoc(log: seq<Commit>, c: Commit, t: TxnId)
    ensures Passes(log + [c], t) == Passes(log, t) + if !c.sync && c.txn == t then 1 else 0
  {}

  // ---- Rows that never reach the queue ------------------------------------

  ghost predicate ConsumerEnqueued(hist: History, k: Consumer) {
    && (forall m :: m in k.inbox ==> m.txn in hist.enqueued)
    && (InProgress(k.pc).Some? ==> InProgress(k.pc).value.txn in hist.enqueued)
  }

  ghost predicate EnqueuedInv(s: State) {
    && (forall t :: t in s.hist.enqueued ==> t in AsyncRows(s.hist.accepted) && t !in s.hist.lost)
    && (forall h :: 0 <= h < |s.handlers| && InHand(s.handlers[h].pc).Some? ==>
          InHand(s.handlers[h].pc).value !in s.hist.enqueued)
    && (forall m :: m in s.ready ==> m.txn in s.hist.enqueued)
    && (forall c :: 0 <= c < |s.consumers| ==> ConsumerEnqueued(s.hist, s.consumers[c]))
    && s.hist.acked <= s.hist.enqueued
    && (forall e :: e in s.hist.log ==>
          if e.sync then e.txn in s.db.txns && e.txn !in AsyncRows(s.hist.accepted) else e.txn in s.hist.enqueued)
  }

  /** A row that has not been enqueued is as it was inserted. */
  ghost predicate UntouchedInv(s: State) {
    forall t :: t in AsyncRows(s.hist.accepted) && t !in s.hist.enqueued ==>
      t in s.db.txns && s.db.txns[t].status.Pending? && s.db.txns[t].ver == 0
  }

  ghost predicate QueueInv(s: State) {
    EnqueuedInv(s) && UntouchedInv(s)
  }

  lemma AsyncRowsExist(s: State)
    requires AcceptedExist(s)
    ensures AsyncRows(s.hist.accepted) <= s.db.txns.Keys
  {}

  lemma HandlerQueue(s: State, h: nat, e: HandlerEvent)
    requires QueueInv(s) && h < |s.handlers| && AcceptedExist(s) && OnePlace(s) && SomePlace(s)
    ensures QueueInv(StepHandler(s, h, e))
  {
    hide HandlerInsert, HandlerPublish, OnePlace, SomePlace, Live, UserActive;
    HandlerFrame(s, h, e);
    AsyncRowsExist(s);
    var pc := s.handlers[h].pc;
    match e
    case DoInsert(t, reference, outcome) =>
      if pc.Insert? { InsertQueue(s, h, t, reference, outcome); }
    case DoPublish(sending) =>
      if pc.Publish? { PublishQueue(s, h, sending); }
    case Die =>
    case _ =>
  }

  lemma InsertQueue(s: State, h: nat, t: TxnId, reference: string, outcome: Outcome)
    requires QueueInv(s) && h < |s.handlers| && s.handlers[h].pc.Insert? && AcceptedExist(s)
    ensures QueueInv(HandlerInsert(s, h, t, reference, outcome))
  {
    hide HandlerInsert;
    var s' := HandlerInsert(s, h, t, reference, outcome);
    InsertFrame(s, h, t, reference, outcome);
    AsyncRowsExist(s);
    if s'.hist.accepted != s.hist.accepted {
      AsyncRowsSnoc(s.hist.accepted, s'.hist.accepted[|s.hist.accepted|]);
    }
  }

  lemma PublishQueue(s: State, h: nat, sending: Sending)
    requires QueueInv(s) && h < |s.handlers| && s.handlers[h].pc.Publish? && OnePlace(s) && SomePlace(s)
    ensures QueueInv(HandlerPublish(s, h, sending))
  {
    hide QueueFull, OnePlace, SomePlace;
    HandAlone(s, h, s.handlers[h].pc.t);
  }

  /** A row in a handler's hand is in nobody else's and not lost, and has a place. */
  lemma HandAlone(s: State, h: nat, t: TxnId)
    requires OnePlace(s) && SomePlace(s) && h < |s.handlers| && InHand(s.handlers[h].pc) == Some(t)
    ensures t in AsyncRows(s.hist.accepted) && t !in s.hist.lost
    ensures forall g :: 0 <= g < |s.handlers| && InHand(s.handlers[g].pc) == Some(t) ==> g == h
  {
    assert At(s, InHandler(h), t);
    assert At(s, IsLost, t) <==> t in s.hist.lost;
    forall g | 0 <= g < |s.handlers| && InHand(s.handlers[g].pc) == Some(t) ensures g == h {
      assert At(s, InHandler(g), t);
    }
  }

  /** A consumer only ever passes on messages that were enqueued. */
  lemma ConsumerPasses(s: State, c: nat, e: ConsumerEvent)
    requires EnqueuedInv(s) && c < |s.consumers|
    ensures
      var s' := StepConsumer(s, c, e);
      && ConsumerEnqueued(s.hist, s'.consumers[c])
      && (forall m :: m in s'.ready ==> m.txn in s.hist.enqueued)
      && s'.hist.acked <= s.hist.enqueued
  {
    hide MarkProcessing, InstallPass, Validates, Delta, Listed, CacheDelete, AsyncRows;
    assert ConsumerEnqueued(s.hist, s.consumers[c]);
    InboxComesFrom(s, c, e);
    ReadyComesFrom(s, c, e);
    WorkComesFrom(s, c, e);
    if !e.Ack? { ConsumerStores(s, c, e); }
    match e case Ack => case _ =>
  }

  /** It writes to no row but that of an enqueued message, and logs only such. */
  lemma ConsumerWrites(s: State, c: nat, e: ConsumerEvent)
    requires EnqueuedInv(s) && c < |s.consumers|
    ensures
      var s' := StepConsumer(s, c, e);
      && s.db.txns.Keys <= s'.db.txns.Keys
      && (forall t :: t in s.db.txns && t !in s.hist.enqueued ==> s'.db.txns[t] == s.db.txns[t])
      && (forall x :: x in s'.hist.log ==> x in s.hist.log || (!x.sync && x.txn in s.hist.enqueued))
  {
    hide ConsumerCommit, Validates, Delta;
    ConsumerStores(s, c, e);
    assert ConsumerEnqueued(s.hist, s.consumers[c]);
    match e {
      case Claim(_) =>
      case DoCommit(outcome) =>
        if s.consumers[c].pc.BalanceSet? { CommitFrame(s, c, outcome); }
      case _ =>
    }
  }

  lemma ConsumerQueue(s: State, c: nat, e: ConsumerEvent)
    requires QueueInv(s) && c < |s.consumers|
    ensures QueueInv(StepConsumer(s, c, e))
  {
    hide StepConsumer, AsyncRows;
    ConsumerFrame(s, c, e);
    ConsumerPasses(s, c, e);
    ConsumerWrites(s, c, e);
  }

  lemma SyncQueue(s: State, v: nat, e: SyncEvent)
    requires QueueInv(s) && v < |s.syncs| && AcceptedExist(s)
    ensures QueueInv(StepSync(s, v, e))
  {
    var s' := StepSync(s, v, e);
    SyncFrame(s, v, e);
    AsyncRowsExist(s);
    if s'.hist.accepted != s.hist.accepted {
      AsyncRowsSnoc(s.hist.accepted, s'.hist.accepted[|s.hist.accepted|]);
    }
  }

  lemma QueueKept(s: State, e: Event)
    requires QueueInv(s) && WorkInv(s) && AcceptedExist(s)
    ensures QueueInv(Next(s, e))
  {
    hide StepHandler, StepConsumer, StepSync, StepReader;
    match e
    case OnHandler(h, he) => if h < |s.handlers| { HandlerQueue(s, h, he); }
    case OnConsumer(c, ce) => if c < |s.consumers| { ConsumerQueue(s, c, ce); }
    case OnSync(v, ve) => if v < |s.syncs| { SyncQueue(s, v, ve); }
    case OnReader(r, re) => if r < |s.readers| { ReaderFrame(s, r, re); }
    case _ =>
  }

  lemma {:induction false} QueueHolds(tr: seq<State>, es: seq<Event>, i: nat)
    requires Behavior(tr, es) && i <= |es|
    ensures QueueInv(tr[i])
    decreases i
  {
    hide Next;
    if i > 0 {
      QueueHolds(tr, es, i - 1);
      WorkHolds(tr, es, i - 1);
      ReferencesHold(tr, es, i - 1);
      AcceptedRowsExist(tr[i - 1]);
      QueueKept(tr[i - 1], es[i - 1]);
      assert tr[i - 1 + 1] == Next(tr[i - 1], es[i - 1]);
    }
  }

  lemma {:induction false} LostStaysLost(tr: seq<State>, es: seq<Event>, i: nat, j: nat)
    requires Execution(tr, es) && i <= j <= |es|
    ensures tr[i].hist.lost <= tr[j].hist.lost && |tr[i].hist.log| <= |tr[j].hist.log|
    ensures AsyncRows(tr[i].hist.accepted) <= AsyncRows(tr[j].hist.accepted)
    decreases j
  {
    hide Next;
    if i < j {
      LostStaysLost(tr, es, i, j - 1);
      HistoryGrows(tr[j - 1], es[j - 1]);
    }
  }

  lemma HandlerAccepts(s: State, h: nat, e: HandlerEvent)
    requires h < |s.handlers|
    ensures AsyncRows(s.hist.accepted) <= AsyncRows(StepHandler(s, h, e).hist.accepted)
  {
    hide HandlerInsert, AsyncRows;
    HandlerFrame(s, h, e);
    match e
    case DoInsert(t, reference, outcome) =>
      if s.handlers[h].pc.Insert? {
        InsertFrame(s, h, t, reference, outcome);
        AsyncRowsSnoc(s.hist.accepted, Accepted(t, s.handlers[h].req, false));
      }
    case _ =>
  }

  lemma ConsumerLogs(s: State, c: nat, e: ConsumerEvent)
    requires c < |s.consumers|
    ensures |s.hist.log| <= |StepConsumer(s, c, e).hist.log|
  {}

  lemma HistoryGrows(s: State, e: Event)
    ensures s.hist.lost <= Next(s, e).hist.lost
    ensures |s.hist.log| <= |Next(s, e).hist.log|
    ensures s.hist.acked <= Next(s, e).hist.acked
    ensures AsyncRows(s.hist.accepted) <= AsyncRows(Next(s, e).hist.accepted)
  {
    hide StepHandler, StepConsumer, StepSync, StepReader;
    match e {
      case OnHandler(h, he) => if h < |s.handlers| { HandlerFrame(s, h, he); HandlerAccepts(s, h, he); }
      case OnConsumer(c, ce) => if c < |s.consumers| { ConsumerFrame(s, c, ce); ConsumerLogs(s, c, ce); }
      case OnSync(v, ve) =>
        if v < |s.syncs| {
          SyncFrame(s, v, ve);
          var s' := StepSync(s, v, ve);
          if s'.hist.accepted != s.hist.accepted {
            AsyncRowsSnoc(s.hist.accepted, s'.hist.accepted[|s.hist.accepted|]);
          }
        }
      case OnReader(r, re) => if r < |s.readers| { ReaderFrame(s, r, re); }
      case _ =>
    }
  }

  /** A row whose message was never enqueued (its publish failed, the full queue dropped it, or its handler died)
      stays exactly as inserted, `pending`, and moves no balance for the rest of the run. */
  lemma NeverEnqueuedStaysPending(tr: seq<State>, es: seq<Event>, i: nat, j: nat, t: TxnId)
    requires Behavior(tr, es) && i <= j <= |es| && t in tr[i].hist.lost
    ensures t in tr[j].db.txns && tr[j].db.txns[t].status.Pending?
    ensures forall e :: e in tr[j].hist.log ==> e.txn != t
  {
    LostStaysLost(tr, es, i, j);
    WorkHolds(tr, es, j);
    QueueHolds(tr, es, j);
    assert At(tr[j], IsLost, t);
  }

  // ---- Statuses ------------------------------------------------------------

  /** No step writes `failed`, and no step puts a row back to `pending`. */
  ghost predicate StatusesAdvance(before: Db, after: Db) {
    && (forall t :: t in before.txns ==>
          && t in after.txns
          && (after.txns[t].status == before.txns[t].status || after.txns[t].status in {Processing, Completed}))
    && (forall t :: t in after.txns && t !in before.txns ==> after.txns[t].status in {Pending, Completed})
  }

  lemma HandlerStatuses(s: State, h: nat, e: HandlerEvent)
    requires h < |s.handlers|
    ensures StatusesAdvance(s.db, StepHandler(s, h, e).db)
  {
    hide HandlerInsert;
    HandlerFrame(s, h, e);
    match e
    case DoInsert(t, reference, outcome) =>
      if s.handlers[h].pc.Insert? { InsertFrame(s, h, t, reference, outcome); }
    case _ =>
  }

  lemma ConsumerStatuses(s: State, c: nat, e: ConsumerEvent)
    requires c < |s.consumers|
    ensures StatusesAdvance(s.db, StepConsumer(s, c, e).db)
  {}

  lemma StatusStep(s: State, e: Event)
    ensures StatusesAdvance(s.db, Next(s, e).db)
  {
    hide StepHandler, StepConsumer, StepSync, StepReader, Delta;
    match e {
      case OnHandler(h, he) => if h < |s.handlers| { HandlerStatuses(s, h, he); }
      case OnConsumer(c, ce) => if c < |s.consumers| { ConsumerStatuses(s, c, ce); }
      case OnSync(v, ve) => if v < |s.syncs| { SyncFrame(s, v, ve); }
      case OnReader(r, re) => if r < |s.readers| { ReaderFrame(s, r, re); }
      case _ =>
    }
  }

  /** No code path writes `failed`: such a row was there from the start. */
  lemma {:induction false} NothingWritesFailed(tr: seq<State>, es: seq<Event>, i: nat, t: TxnId)
    requires Behavior(tr, es) && i <= |es| && t in tr[i].db.txns && tr[i].db.txns[t].status.Failed?
    ensures t in tr[0].db.txns && tr[0].db.txns[t].status.Failed?
    decreases i
  {
    hide Next;
    if i > 0 {
      StatusStep(tr[i - 1], es[i - 1]);
      assert tr[i - 1 + 1] == Next(tr[i - 1], es[i - 1]);
      NothingWritesFailed(tr, es, i - 1, t);
    }
  }

  /** A row that has left `pending` never returns to it. */
  lemma {:induction false} StatusesNeverGoBack(tr: seq<State>, es: seq<Event>, i: nat, j: nat, t: TxnId)
    requires Behavior(tr, es) && i <= j <= |es| && t in tr[i].db.txns
    ensures t in tr[j].db.txns
    ensures !tr[i].db.txns[t].status.Pending? ==> !tr[j].db.txns[t].status.Pending?
    decreases j
  {
    hide Next;
    if i < j {
      StatusesNeverGoBack(tr, es, i, j - 1, t);
      StatusStep(tr[j - 1], es[j - 1]);
      assert tr[j - 1 + 1] == Next(tr[j - 1], es[j - 1]);
    }
  }
}

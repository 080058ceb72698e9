/** What each kind of step leaves alone, and all it can do to the rest. */
module Frames {
  import opened Domain
  import opened Stores
  import opened Protocol

  // ---- Handlers ------------------------------------------------------------

  ghost predicate HandlerFramed(s: State, s': State, h: nat) {
    && h < |s.handlers| == |s'.handlers|
    && s'.cfg == s.cfg && s'.clock == s.clock
    && s'.consumers == s.consumers && s'.syncs == s.syncs && s'.readers == s.readers
    && s'.hist.log == s.hist.log && s'.hist.drops == s.hist.drops && s'.hist.acked == s.hist.acked
    && s'.hist.step == s.hist.step
    && s'.handlers == s.handlers[h := s'.handlers[h]]
    && s'.handlers[h].req == s.handlers[h].req
    && s'.db.users == s.db.users
  }

  /** The whole effect of a successful insert on everything but the handler's program counter. */
  ghost predicate Inserted(s: State, s': State, h: nat, t: TxnId, reference: string) {
    && h < |s.handlers| == |s'.handlers|
    && var req, pc := s.handlers[h].req, s'.handlers[h].pc;
       && Insertable(s.db, t, req)
       && s'.db == InsertRow(s.db, t, req, reference, Pending, s.clock)
       && s'.hist.accepted == s.hist.accepted + [Accepted(t, req, false)]
       && ((pc == Replied(InsertFailed) && s'.hist.lost == s.hist.lost + {t})
           || ((if req.key == "" then pc == Publish(t) else pc == SetKey(t)) && s'.hist.lost == s.hist.lost))
  }

  lemma InsertFrame(s: State, h: nat, t: TxnId, reference: string, outcome: Outcome)
    requires h < |s.handlers| && s.handlers[h].pc.Insert?
    ensures
      var s' := HandlerInsert(s, h, t, reference, outcome);
      && HandlerFramed(s, s', h) && s'.cache == s.cache && s'.ready == s.ready && s'.hist.enqueued == s.hist.enqueued
      && ((s'.db == s.db && s'.hist == s.hist && s'.handlers[h].pc == Replied(InsertFailed))
          || Inserted(s, s', h, t, reference))
  {}

  lemma PublishFrame(s: State, h: nat, sending: Sending)
    requires h < |s.handlers| && s.handlers[h].pc.Publish?
    ensures
      var s' := HandlerPublish(s, h, sending);
      && HandlerFramed(s, s', h) && s'.cache == s.cache && s'.db == s.db && s'.hist.accepted == s.hist.accepted
  {}

  lemma SetKeyFrame(s: State, h: nat, ok: bool)
    requires h < |s.handlers| && s.handlers[h].pc.SetKey?
    ensures
      var s' := HandlerSetKey(s, h, ok);
      && HandlerFramed(s, s', h) && s'.db == s.db && s'.ready == s.ready && s'.hist == s.hist
  {}

  lemma HandlerFrame(s: State, h: nat, e: HandlerEvent)
    requires h < |s.handlers|
    ensures
      var s' := StepHandler(s, h, e);
      && HandlerFramed(s, s', h)
      && (!e.DoInsert? ==> s'.db == s.db && s'.hist.accepted == s.hist.accepted)
      && (!e.DoSetKey? ==> s'.cache == s.cache)
      && (!e.DoPublish? ==> s'.ready == s.ready && s'.hist.enqueued == s.hist.enqueued)
      && s.hist.lost <= s'.hist.lost
  {
    hide HandlerInsert, HandlerPublish, HandlerSetKey, CacheGet, UserActive;
    match e
    case DoInsert(t, reference, outcome) => if s.handlers[h].pc.Insert? { InsertFrame(s, h, t, reference, outcome); }
    case DoSetKey(ok) => if s.handlers[h].pc.SetKey? { SetKeyFrame(s, h, ok); }
    case DoPublish(sending) =>
      if s.handlers[h].pc.Publish? { PublishFrame(s, h, sending); PublishLoses(s, h, sending); }
    case _ =>
  }

  lemma PublishLoses(s: State, h: nat, sending: Sending)
    requires h < |s.handlers| && s.handlers[h].pc.Publish?
    ensures s.hist.lost <= HandlerPublish(s, h, sending).hist.lost
  {}

  // ---- Consumers -----------------------------------------------------------

  lemma ConsumerFrame(s: State, c: nat, e: ConsumerEvent)
    requires c < |s.consumers|
    ensures
      var s' := StepConsumer(s, c, e);
      && s'.cfg == s.cfg && s'.clock == s.clock
      && s'.handlers == s.handlers && s'.syncs == s.syncs && s'.readers == s.readers
      && s'.hist.accepted == s.hist.accepted && s'.hist.enqueued == s.hist.enqueued && s'.hist.lost == s.hist.lost
      && s'.hist.step == s.hist.step
      && |s'.consumers| == |s.consumers|
      && s'.consumers == s.consumers[c := s'.consumers[c]]
      && s.hist.acked <= s'.hist.acked
  {}

  /** Only these events change the database, Redis or the log. */
  lemma ConsumerStores(s: State, c: nat, e: ConsumerEvent)
    requires c < |s.consumers|
    ensures
      var s' := StepConsumer(s, c, e);
      && (!e.Claim? && !e.DoCommit? ==> s'.db == s.db)
      && (!e.DoCommit? ==> s'.hist.log == s.hist.log)
      && (!e.DeleteBalance? && !e.DeleteTransaction? ==> s'.cache == s.cache)
      && (!e.DeleteBalance? ==> s'.hist.drops == s.hist.drops)
      && (forall k :: k in s'.cache ==> k in s.cache && s'.cache[k] == s.cache[k])
      && (forall k :: k in s.cache && k.IdempotencyKey? ==> k in s'.cache)
  {
    hide InstallPass, Validates, MarkProcessing, TakeSnapshot, Delta;
  }

  /** The whole effect of an applied commit on the stores and the log. */
  ghost predicate Committed(s: State, s': State, c: nat) {
    && c < |s.consumers| == |s'.consumers| && s.consumers[c].pc.BalanceSet?
    && var m, snap := s.consumers[c].pc.m, s.consumers[c].pc.snap;
       && Validates(s.db, m, snap)
       && s'.db == InstallPass(s.db, m, snap)
       && s'.hist.log == s.hist.log + [Commit(m.txn, m.user, Delta(m.kind, m.amount), false, s.hist.step)]
       && (s'.consumers[c].pc == DropBalance(m, |s.hist.log|) || s'.consumers[c].pc == ToNack(m))
  }

  lemma CommitFrame(s: State, c: nat, outcome: Outcome)
    requires c < |s.consumers| && s.consumers[c].pc.BalanceSet?
    ensures
      var s' := ConsumerCommit(s, c, outcome);
      && (Committed(s, s', c)
          || (s'.db == s.db && s'.hist == s.hist && s'.consumers[c].pc == ToNack(s.consumers[c].pc.m)))
      && s'.consumers[c].inbox == s.consumers[c].inbox && s'.consumers[c].up == s.consumers[c].up
      && s'.hist.acked == s.hist.acked && s'.ready == s.ready
      && (Committed(s, s', c) ==> outcome.Ambiguous? == s'.consumers[c].pc.ToNack?)
      && (Committed(s, s', c) <==> !outcome.NotDone? && Validates(s.db, s.consumers[c].pc.m, s.consumers[c].pc.snap))
  {}

  // ---- The rest ------------------------------------------------------------

  lemma SyncFrame(s: State, v: nat, e: SyncEvent)
    requires v < |s.syncs|
    ensures
      var s' := StepSync(s, v, e);
      && s'.cfg == s.cfg && s'.clock == s.clock && s'.cache == s.cache && s'.ready == s.ready
      && s'.handlers == s.handlers && s'.consumers == s.consumers && s'.readers == s.readers
      && s'.hist.drops == s.hist.drops && s'.hist.enqueued == s.hist.enqueued
      && s'.hist.lost == s.hist.lost && s'.hist.acked == s.hist.acked && s'.hist.step == s.hist.step
      && |s'.syncs| == |s.syncs|
      && s'.syncs == s.syncs[v := s'.syncs[v]]
      && s'.syncs[v].req == s.syncs[v].req
      && ((s'.db == s.db && s'.hist == s.hist) || (e.DoSyncCommit? && Synced(s, s', v, e.t, e.reference)))
  {}

  /** The whole effect of an applied synchronous commit on the database and the history. */
  ghost predicate Synced(s: State, s': State, v: nat, t: TxnId, reference: string) {
    && v < |s.syncs| && s.syncs[v].pc.SyncCommit?
    && var req, snap := s.syncs[v].req, s.syncs[v].pc.snap;
       && Insertable(s.db, t, req) && AccountUnchanged(s.db, req.user, snap.account)
       && s'.db == InstallSync(s.db, t, req, reference, snap.at, snap.account)
       && s'.hist.log == s.hist.log + [Commit(t, req.user, Delta(req.kind, req.amount), true, s.hist.step)]
       && s'.hist.accepted == s.hist.accepted + [Accepted(t, req, true)]
  }

  lemma ReaderFrame(s: State, r: nat, e: ReaderEvent)
    requires r < |s.readers|
    ensures
      var s' := StepReader(s, r, e);
      && s'.(cache := s.cache, readers := s.readers) == s
      && |s'.readers| == |s.readers|
      && s'.readers == s.readers[r := s'.readers[r]]
  {}
}

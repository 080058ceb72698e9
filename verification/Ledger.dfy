/** Snapshot transactions keep the ledger: no interleaving loses, repeats or invents a balance change. */
module Ledger {
  import opened Domain
  import opened Stores
  import opened Protocol
  import opened Frames
  import opened Traces

  /** The sum of the deltas that `log` holds for user `u`. */
  function Sum(log: seq<Commit>, u: UserId): int
    decreases |log|
  {
    if log == [] then 0
    else
      var last := log[|log| - 1];
      Sum(log[..|log| - 1], u) + if last.user == u then last.delta else 0
  }

  lemma SumSnoc(log: seq<Commit>, c: Commit, u: UserId)
    ensures Sum(log + [c], u) == Sum(log, u) + if c.user == u then c.delta else 0
  {}

  // ---- Snapshots -----------------------------------------------------------

  /** A snapshot is never newer than the row, and is the row itself while the versions agree. */
  ghost predicate AccountSeen(db: Db, u: UserId, seen: Option<Account>) {
    match seen
    case None => u !in db.users
    case Some(a) => u in db.users && a.ver <= db.users[u].ver && (a.ver == db.users[u].ver ==> a == db.users[u])
  }

  ghost predicate RowSeen(db: Db, t: TxnId, seen: Option<Row>) {
    match seen
    case None => true
    case Some(r) =>
      && t in db.txns && r.ver <= db.txns[t].ver && (r.ver == db.txns[t].ver ==> r == db.txns[t])
      && SameFixedColumns(r, db.txns[t])
  }

  ghost predicate SnapshotHeld(db: Db, m: Message, snap: Snapshot) {
    RowSeen(db, m.txn, snap.row) && AccountSeen(db, m.user, snap.account)
  }

  ghost predicate ConsumerSnapshot(db: Db, pc: ConsumerPc) {
    match pc
    case Begun(m, snap) => SnapshotHeld(db, m, snap)
    case StatusSet(m, snap) => SnapshotHeld(db, m, snap)
    case BalanceSet(m, snap) => SnapshotHeld(db, m, snap)
    case _ => true
  }

  ghost predicate SyncSnapshot(db: Db, y: Sync) {
    match y.pc
    case SyncInsert(snap) => AccountSeen(db, y.req.user, snap.account)
    case SyncBalance(snap) => AccountSeen(db, y.req.user, snap.account)
    case SyncCommit(snap) => AccountSeen(db, y.req.user, snap.account)
    case _ => true
  }

  ghost predicate SnapshotsHeld(s: State) {
    && (forall c :: 0 <= c < |s.consumers| ==> ConsumerSnapshot(s.db, s.consumers[c].pc))
    && (forall v :: 0 <= v < |s.syncs| ==> SyncSnapshot(s.db, s.syncs[v]))
  }

  /** Every step that touches a row moves its version on and keeps its fixed columns; no row disappears. */
  ghost predicate DbAdvances(before: Db, after: Db) {
    && before.users.Keys == after.users.Keys
    && (forall u :: u in before.users ==>
          && after.users[u].active == before.users[u].active
          && (after.users[u] == before.users[u] || after.users[u].ver > before.users[u].ver))
    && (forall t :: t in before.txns ==>
          && t in after.txns && SameFixedColumns(after.txns[t], before.txns[t])
          && (after.txns[t] == before.txns[t] || after.txns[t].ver > before.txns[t].ver))
  }

  lemma HandlerAdvances(s: State, h: nat, e: HandlerEvent)
    requires h < |s.handlers|
    ensures DbAdvances(s.db, StepHandler(s, h, e).db)
  {
    hide HandlerInsert;
    HandlerFrame(s, h, e);
    if e.DoInsert? && s.handlers[h].pc.Insert? { InsertFrame(s, h, e.t, e.reference, e.outcome); }
  }

  lemma PassAdvances(db: Db, m: Message, snap: Snapshot)
    requires SnapshotHeld(db, m, snap) && Validates(db, m, snap)
    ensures DbAdvances(db, InstallPass(db, m, snap))
  {}

  lemma ClaimAdvances(s: State, c: nat, outcome: Outcome)
    requires c < |s.consumers|
    ensures DbAdvances(s.db, StepConsumer(s, c, Claim(outcome)).db)
  {
    hide ConsumerCommit, ConsumerNack, ConsumerAck, ConsumerCrash, ConsumerDisconnect, ConsumerDeliver;
  }

  lemma CommitAdvances(s: State, c: nat, outcome: Outcome)
    requires c < |s.consumers| && ConsumerSnapshot(s.db, s.consumers[c].pc)
    ensures DbAdvances(s.db, StepConsumer(s, c, DoCommit(outcome)).db)
  {
    hide InstallPass, Validates, ConsumerCommit, SnapshotHeld;
    var pc := s.consumers[c].pc;
    if pc.BalanceSet? {
      CommitFrame(s, c, outcome);
      if Validates(s.db, pc.m, pc.snap) { PassAdvances(s.db, pc.m, pc.snap); }
    }
  }

  lemma ConsumerAdvances(s: State, c: nat, e: ConsumerEvent)
    requires c < |s.consumers| && ConsumerSnapshot(s.db, s.consumers[c].pc)
    ensures DbAdvances(s.db, StepConsumer(s, c, e).db)
  {
    hide StepConsumer, ConsumerSnapshot;
    ConsumerStores(s, c, e);
    match e
    case Claim(outcome) => ClaimAdvances(s, c, outcome);
    case DoCommit(outcome) => CommitAdvances(s, c, outcome);
    case _ =>
  }

  lemma SyncAdvances(s: State, v: nat, e: SyncEvent)
    requires v < |s.syncs| && SyncSnapshot(s.db, s.syncs[v])
    ensures DbAdvances(s.db, StepSync(s, v, e).db)
  {
    hide StepSync, Delta;
    SyncFrame(s, v, e);
  }

  lemma StepAdvances(s: State, e: Event)
    requires SnapshotsHeld(s)
    ensures DbAdvances(s.db, Step(s, e).db)
  {
    hide StepHandler, StepConsumer, StepSync;
    match e
    case OnHandler(h, he) => if h < |s.handlers| { HandlerAdvances(s, h, he); }
    case OnConsumer(c, ce) => if c < |s.consumers| { ConsumerAdvances(s, c, ce); }
    case OnSync(v, ve) => if v < |s.syncs| { SyncAdvances(s, v, ve); }
    case _ =>
  }

  lemma SnapshotsStayHeld(a: Db, s: State)
    requires SnapshotsHeld(s.(db := a)) && DbAdvances(a, s.db)
    ensures SnapshotsHeld(s)
  {}

  /** A process's own step leaves it with a snapshot of the database it started from. */
  lemma OwnConsumerSnapshot(s: State, c: nat, e: ConsumerEvent)
    requires c < |s.consumers| && ConsumerSnapshot(s.db, s.consumers[c].pc)
    ensures ConsumerSnapshot(s.db, StepConsumer(s, c, e).consumers[c].pc)
  {
    hide MarkProcessing, InstallPass, Validates;
  }

  lemma OwnSyncSnapshot(s: State, v: nat, e: SyncEvent)
    requires v < |s.syncs| && SyncSnapshot(s.db, s.syncs[v])
    ensures SyncSnapshot(s.db, StepSync(s, v, e).syncs[v])
  {}

  lemma OwnSnapshots(s: State, e: Event)
    requires SnapshotsHeld(s)
    ensures SnapshotsHeld(Step(s, e).(db := s.db))
  {
    hide StepHandler, StepConsumer, StepSync, StepReader;
    match e
    case OnHandler(h, he) => if h < |s.handlers| { HandlerFrame(s, h, he); }
    case OnConsumer(c, ce) => if c < |s.consumers| { ConsumerFrame(s, c, ce); OwnConsumerSnapshot(s, c, ce); }
    case OnSync(v, ve) => if v < |s.syncs| { SyncFrame(s, v, ve); OwnSyncSnapshot(s, v, ve); }
    case OnReader(r, re) => if r < |s.readers| { ReaderFrame(s, r, re); }
    case _ =>
  }

  lemma SnapshotsKept(s: State, e: Event)
    requires SnapshotsHeld(s)
    ensures SnapshotsHeld(Step(s, e)) && DbAdvances(s.db, Step(s, e).db)
  {
    hide Step, DbAdvances, SnapshotsHeld;
    OwnSnapshots(s, e);
    StepAdvances(s, e);
    SnapshotsStayHeld(s.db, Step(s, e));
  }

  // ---- The ledger ----------------------------------------------------------

  /** Each balance is its initial value plus the logged deltas; users are neither added, removed nor deactivated. */
  ghost predicate Balanced(db0: Db, s: State) {
    && s.db.users.Keys == db0.users.Keys
    && forall u :: u in db0.users ==>
         && s.db.users[u].active == db0.users[u].active
         && s.db.users[u].balance == db0.users[u].balance + Sum(s.hist.log, u)
  }

  ghost predicate LedgerInv(db0: Db, s: State) {
    SnapshotsHeld(s) && Balanced(db0, s)
  }

  lemma CommittedBalanced(db0: Db, s: State, s': State, c: nat)
    requires Balanced(db0, s) && Committed(s, s', c) && ConsumerSnapshot(s.db, s.consumers[c].pc)
    ensures Balanced(db0, s')
  {}

  lemma CommitBalanced(db0: Db, s: State, c: nat, outcome: Outcome)
    requires Balanced(db0, s) && c < |s.consumers| && ConsumerSnapshot(s.db, s.consumers[c].pc)
    ensures Balanced(db0, StepConsumer(s, c, DoCommit(outcome)))
  {
    hide InstallPass, Validates, ConsumerCommit, ConsumerSnapshot, Sum, Committed;
    if s.consumers[c].pc.BalanceSet? {
      CommitFrame(s, c, outcome);
      if Committed(s, ConsumerCommit(s, c, outcome), c) { CommittedBalanced(db0, s, ConsumerCommit(s, c, outcome), c); }
    }
  }

  lemma ClaimKeepsUsers(s: State, c: nat, outcome: Outcome)
    requires c < |s.consumers|
    ensures StepConsumer(s, c, Claim(outcome)).db.users == s.db.users
  {}

  lemma PassBalanced(db0: Db, s: State, c: nat, e: ConsumerEvent)
    requires LedgerInv(db0, s) && c < |s.consumers|
    ensures Balanced(db0, StepConsumer(s, c, e))
  {
    hide StepConsumer, ConsumerSnapshot, Sum;
    assert ConsumerSnapshot(s.db, s.consumers[c].pc);
    ConsumerStores(s, c, e);
    match e
    case Claim(outcome) => ClaimKeepsUsers(s, c, outcome);
    case DoCommit(outcome) => CommitBalanced(db0, s, c, outcome);
    case _ =>
  }

  lemma SyncedBalanced(db0: Db, s: State, s': State, v: nat, t: TxnId, reference: string)
    requires Balanced(db0, s) && Synced(s, s', v, t, reference) && SyncSnapshot(s.db, s.syncs[v])
    ensures Balanced(db0, s')
  {}

  lemma SyncBalanced(db0: Db, s: State, v: nat, e: SyncEvent)
    requires LedgerInv(db0, s) && v < |s.syncs|
    ensures Balanced(db0, StepSync(s, v, e))
  {
    hide StepSync, Sum, Synced;
    SyncFrame(s, v, e);
    assert SyncSnapshot(s.db, s.syncs[v]);
    if e.DoSyncCommit? && Synced(s, StepSync(s, v, e), v, e.t, e.reference) {
      SyncedBalanced(db0, s, StepSync(s, v, e), v, e.t, e.reference);
    }
  }

  lemma LedgerKept(db0: Db, s: State, e: Event)
    requires LedgerInv(db0, s)
    ensures LedgerInv(db0, Next(s, e))
  {
    hide StepHandler, StepConsumer, StepSync, StepReader, DbAdvances, Sum;
    SnapshotsKept(s, e);
    match e
    case OnHandler(h, he) => if h < |s.handlers| { HandlerFrame(s, h, he); }
    case OnConsumer(c, ce) => if c < |s.consumers| { PassBalanced(db0, s, c, ce); }
    case OnSync(v, ve) => if v < |s.syncs| { SyncBalanced(db0, s, v, ve); }
    case OnReader(r, re) => if r < |s.readers| { ReaderFrame(s, r, re); }
    case _ =>
  }

  /** In every reachable state, under every interleaving, every balance is its initial value plus the signed
      amounts of the committed passes and synchronous requests: aborted transactions add nothing and no
      concurrent change is lost. */
  lemma {:induction false} LedgerHolds(tr: seq<State>, es: seq<Event>, i: nat)
    requires Behavior(tr, es) && i <= |es|
    ensures LedgerInv(tr[0].db, tr[i])
    decreases i
  {
    hide Next;
    if i > 0 {
      LedgerHolds(tr, es, i - 1);
      LedgerKept(tr[0].db, tr[i - 1], es[i - 1]);
      assert tr[i - 1 + 1] == Next(tr[i - 1], es[i - 1]);
    }
  }
}

/** The asynchronous pipeline refines the synchronous path. */
module Refinement {
  import opened Domain
  import opened Stores
  import opened Protocol
  import opened Frames
  import opened Traces
  import opened Ledger
  import opened References
  import opened Delivery
  import opened Lifecycle
  import opened ExactlyOnce

  // ---- The specification: the synchronous path, one request after another ---

  /** `CreateTransactionV0` run alone. */
  function SyncOne(db: Db, a: Accepted): Db {
    if UserActive(db, a.req.user) && Bound(a.req) && a.txn !in db.txns
    then InstallSync(db, a.txn, a.req, "", 0, Some(db.users[a.req.user]))
    else db
  }

  function SyncAll(db: Db, work: seq<Accepted>): Db
    decreases |work|
  {
    if work == [] then db else SyncOne(SyncAll(db, work[..|work| - 1]), work[|work| - 1])
  }

  /** Same users with the same balances; same rows, up to reference and times. */
  ghost predicate SameOutcome(a: Db, b: Db) {
    && a.users.Keys == b.users.Keys
    && (forall u :: u in a.users ==> a.users[u].balance == b.users[u].balance && a.users[u].active == b.users[u].active)
    && a.txns.Keys == b.txns.Keys
    && (forall t :: t in a.txns ==> SameRow(a.txns[t], b.txns[t]))
  }

  predicate SameRow(a: Row, b: Row) {
    a.user == b.user && a.kind == b.kind && a.amount == b.amount && a.description == b.description
    && a.status == b.status
  }

  // ---- Sums over requests --------------------------------------------------

  function Effect(req: Request, u: UserId): int {
    if req.user == u then Delta(req.kind, req.amount) else 0
  }

  /** How often a request's balance change has been committed. */
  function Times(log: seq<Commit>, a: Accepted): nat {
    if a.sync then 1 else Passes(log, a.txn)
  }

  /** Each request counted once. */
  function Plain(work: seq<Accepted>, u: UserId): int
    decreases |work|
  {
    if work == [] then 0 else Plain(work[..|work| - 1], u) + Effect(work[|work| - 1].req, u)
  }

  /** Each request counted once less than it was committed. */
  function Excess(log: seq<Commit>, work: seq<Accepted>, u: UserId): int
    decreases |work|
  {
    if work == [] then 0
    else
      var a := work[|work| - 1];
      Excess(log, work[..|work| - 1], u) + (Times(log, a) - 1) * Effect(a.req, u)
  }

  predicate Distinct(work: seq<Accepted>) {
    forall i, j :: 0 <= i < j < |work| ==> work[i].txn != work[j].txn
  }

  lemma PlainSnoc(work: seq<Accepted>, a: Accepted, u: UserId)
    ensures Plain(work + [a], u) == Plain(work, u) + Effect(a.req, u)
  {}

  lemma ExcessSnoc(log: seq<Commit>, work: seq<Accepted>, a: Accepted, u: UserId)
    ensures Excess(log, work + [a], u) == Excess(log, work, u) + (Times(log, a) - 1) * Effect(a.req, u)
  {}

  /** A commit that belongs to none of the requests changes nothing. */
  lemma {:induction false} ExcessUnmoved(log: seq<Commit>, c: Commit, work: seq<Accepted>, u: UserId)
    requires c.sync || forall a :: a in work && !a.sync ==> a.txn != c.txn
    ensures Excess(log + [c], work, u) == Excess(log, work, u)
    decreases |work|
  {
    if work != [] {
      var a := work[|work| - 1];
      assert a in work;
      forall b | b in work[..|work| - 1] ensures b in work {}
      ExcessUnmoved(log, c, work[..|work| - 1], u);
      PassesSnoc(log, c, a.txn);
    }
  }

  /** A pass counts once for the one request it belongs to. */
  lemma {:induction false} ExcessMoved(log: seq<Commit>, c: Commit, work: seq<Accepted>, i: nat, u: UserId)
    requires !c.sync && Distinct(work) && i < |work| && work[i].txn == c.txn && !work[i].sync
    ensures Excess(log + [c], work, u) == Excess(log, work, u) + Effect(work[i].req, u)
    decreases |work|
  {
    var front, a := work[..|work| - 1], work[|work| - 1];
    PassesSnoc(log, c, a.txn);
    if i == |work| - 1 {
      forall b | b in front ensures b.txn != c.txn {
        var j :| 0 <= j < |front| && front[j] == b;
        assert work[j] == b;
      }
      ExcessUnmoved(log, c, front, u);
      OneMore(Times(log, a), Effect(a.req, u));
    } else {
      assert a.txn != c.txn;
      ExcessMoved(log, c, front, i, u);
    }
  }

  lemma OneMore(k: nat, e: int)
    ensures (k + 1 - 1) * e == (k - 1) * e + e
  {}

  // ---- The invariant -------------------------------------------------------

  predicate PastCheck(pc: HandlerPc) {
    pc.CheckKey? || pc.Insert? || pc.SetKey? || pc.Publish?
  }

  predicate SyncPastCheck(pc: SyncPc) {
    pc.SyncBegin? || pc.SyncInsert? || pc.SyncBalance? || pc.SyncCommit?
  }

  /** Requests past their user check, and accepted ones, are of active users. */
  ghost predicate ActiveInv(s: State) {
    && (forall h :: 0 <= h < |s.handlers| && PastCheck(s.handlers[h].pc) ==> UserActive(s.db, s.handlers[h].req.user))
    && (forall v :: 0 <= v < |s.syncs| && SyncPastCheck(s.syncs[v].pc) ==> UserActive(s.db, s.syncs[v].req.user))
    && (forall i :: 0 <= i < |s.hist.accepted| ==> UserActive(s.db, s.hist.accepted[i].req.user))
  }

  ghost function Ids(work: seq<Accepted>): set<TxnId> {
    set i | 0 <= i < |work| :: work[i].txn
  }

  /** The log moves each balance by each accepted request once, plus the excess. */
  ghost predicate CountedInv(s: State) {
    && Distinct(s.hist.accepted)
    && forall u :: Sum(s.hist.log, u) == Plain(s.hist.accepted, u) + Excess(s.hist.log, s.hist.accepted, u)
  }

  /** The rows are the initial ones, unchanged, and one for each accepted request; synchronous ones are completed. */
  ghost predicate RowsInv(db0: Db, s: State) {
    && (forall t :: t in db0.txns ==> t in s.db.txns && s.db.txns[t] == db0.txns[t])
    && (forall t :: t in s.db.txns ==> t in db0.txns || t in Ids(s.hist.accepted))
    && (forall i :: 0 <= i < |s.hist.accepted| ==>
          var a := s.hist.accepted[i];
          a.txn in s.db.txns && a.txn !in db0.txns && (a.sync ==> s.db.txns[a.txn].status.Completed?))
  }

  lemma {:induction false} NoPasses(log: seq<Commit>, t: TxnId)
    requires forall e :: e in log && !e.sync ==> e.txn != t
    ensures Passes(log, t) == 0
    decreases |log|
  {
    if log != [] {
      forall e | e in log[..|log| - 1] ensures e in log {}
      assert log[|log| - 1] in log;
      NoPasses(log[..|log| - 1], t);
    }
  }

  lemma DistinctSnoc(work: seq<Accepted>, a: Accepted)
    requires Distinct(work) && forall i :: 0 <= i < |work| ==> work[i].txn != a.txn
    ensures Distinct(work + [a])
  {}

  /** A fresh row adds its request to the plain sum and, with no pass committed yet, takes it from the excess. */
  lemma AcceptedCounted(s: State, s': State, a: Accepted)
    requires CountedInv(s) && s'.hist.log == s.hist.log && s'.hist.accepted == s.hist.accepted + [a]
    requires !a.sync && Passes(s.hist.log, a.txn) == 0
    requires forall i :: 0 <= i < |s.hist.accepted| ==> s.hist.accepted[i].txn != a.txn
    ensures CountedInv(s')
  {}

  lemma InsertCounted(s: State, h: nat, t: TxnId, reference: string, outcome: Outcome)
    requires CountedInv(s) && QueueInv(s) && AcceptedExist(s) && h < |s.handlers| && s.handlers[h].pc.Insert?
    ensures CountedInv(HandlerInsert(s, h, t, reference, outcome))
  {
    hide UntouchedInv, CountedInv, HandlerInsert, InsertRow, Passes;
    var s' := HandlerInsert(s, h, t, reference, outcome);
    InsertFrame(s, h, t, reference, outcome);
    if Inserted(s, s', h, t, reference) {
      AsyncRowsExist(s);
      NoPasses(s.hist.log, t);
      AcceptedCounted(s, s', Accepted(t, s.handlers[h].req, false));
    } else {
      SameCounts(s, s');
    }
  }

  lemma CommitCounted(s: State, c: nat, outcome: Outcome)
    requires CountedInv(s) && QueueInv(s) && ReferenceInv(s) && c < |s.consumers| && s.consumers[c].pc.BalanceSet?
    ensures CountedInv(ConsumerCommit(s, c, outcome))
  {
    hide InstallPass, Validates;
    var s' := ConsumerCommit(s, c, outcome);
    if s'.hist.log != s.hist.log {
      var m := s.consumers[c].pc.m;
      var commit := s'.hist.log[|s.hist.log|];
      assert s'.hist.log == s.hist.log + [commit];
      assert ConsumerEnqueued(s.hist, s.consumers[c]);
      var i :| 0 <= i < |s.hist.accepted| && !s.hist.accepted[i].sync && s.hist.accepted[i].txn == m.txn;
      assert AcceptedRefers(s.db, s.hist.accepted[i]);
      assert ConsumerRefers(s.db, s.consumers[c]);
      forall u ensures Sum(s'.hist.log, u) == Plain(s.hist.accepted, u) + Excess(s'.hist.log, s.hist.accepted, u) {
        SumSnoc(s.hist.log, commit, u);
        ExcessMoved(s.hist.log, commit, s.hist.accepted, i, u);
      }
    }
  }

  lemma SyncCounted(s: State, v: nat, e: SyncEvent)
    requires CountedInv(s) && AcceptedExist(s) && v < |s.syncs|
    ensures CountedInv(StepSync(s, v, e))
  {
    hide StepSync;
    var s' := StepSync(s, v, e);
    SyncFrame(s, v, e);
    if s'.hist != s.hist {
      var a := s'.hist.accepted[|s.hist.accepted|];
      var commit := s'.hist.log[|s.hist.log|];
      assert s'.hist.log == s.hist.log + [commit] && s'.hist.accepted == s.hist.accepted + [a];
      assert commit == Commit(a.txn, a.req.user, Delta(a.req.kind, a.req.amount), true, s.hist.step) && a.sync;
      DistinctSnoc(s.hist.accepted, a);
      forall u ensures Sum(s'.hist.log, u) == Plain(s'.hist.accepted, u) + Excess(s'.hist.log, s'.hist.accepted, u) {
        SumSnoc(s.hist.log, commit, u);
        PlainSnoc(s.hist.accepted, a, u);
        ExcessSnoc(s'.hist.log, s.hist.accepted, a, u);
        ExcessUnmoved(s.hist.log, commit, s.hist.accepted, u);
      }
    }
  }

  lemma CountedKept(s: State, e: Event)
    requires CountedInv(s) && QueueInv(s) && ReferenceInv(s)
    ensures CountedInv(Next(s, e))
  {
    hide StepHandler, StepConsumer, StepSync, StepReader, CountedInv, QueueInv, ReferenceInv;
    var s' := Step(s, e);
    AcceptedRowsExist(s);
    match e {
      case OnHandler(h, he) => if h < |s.handlers| { HandlerCounted(s, h, he); }
      case OnConsumer(c, ce) => if c < |s.consumers| { ConsumerCounted(s, c, ce); }
      case OnSync(v, ve) => if v < |s.syncs| { SyncCounted(s, v, ve); }
      case OnReader(r, re) => if r < |s.readers| { ReaderFrame(s, r, re); }
      case _ =>
    }
    SameCounts(s', Next(s, e));
    if !e.OnHandler? && !e.OnConsumer? && !e.OnSync? { SameCounts(s, s'); }
  }

  lemma SameCounts(s: State, s': State)
    requires s'.hist.log == s.hist.log && s'.hist.accepted == s.hist.accepted
    ensures CountedInv(s) ==> CountedInv(s')
  {}

  lemma HandlerCounted(s: State, h: nat, e: HandlerEvent)
    requires CountedInv(s) && QueueInv(s) && AcceptedExist(s) && h < |s.handlers|
    ensures CountedInv(StepHandler(s, h, e))
  {
    hide HandlerInsert, QueueInv, CountedInv;
    HandlerFrame(s, h, e);
    match e
    case DoInsert(t, reference, outcome) =>
      if s.handlers[h].pc.Insert? { InsertCounted(s, h, t, reference, outcome); }
    case _ => SameCounts(s, StepHandler(s, h, e));
  }

  lemma ConsumerCounted(s: State, c: nat, e: ConsumerEvent)
    requires CountedInv(s) && QueueInv(s) && ReferenceInv(s) && c < |s.consumers|
    ensures CountedInv(StepConsumer(s, c, e))
  {
    hide ConsumerCommit, QueueInv, CountedInv, ReferenceInv;
    ConsumerFrame(s, c, e);
    ConsumerStores(s, c, e);
    match e
    case DoCommit(outcome) =>
      if s.consumers[c].pc.BalanceSet? { CommitCounted(s, c, outcome); }
    case _ => SameCounts(s, StepConsumer(s, c, e));
  }

  // ---- Rows and users ------------------------------------------------------

  lemma InsertedRows(db0: Db, s: State, s': State, h: nat, t: TxnId, reference: string)
    requires RowsInv(db0, s) && Inserted(s, s', h, t, reference)
    ensures RowsInv(db0, s')
  {
    hide Ids, NewRow;
    IdsSnoc(s.hist.accepted, Accepted(t, s.handlers[h].req, false));
  }

  lemma SameRows(db0: Db, s: State, s': State)
    requires RowsInv(db0, s) && s'.db.txns == s.db.txns && s'.hist.accepted == s.hist.accepted
    ensures RowsInv(db0, s')
  {}

  lemma HandlerRows(db0: Db, s: State, h: nat, e: HandlerEvent)
    requires RowsInv(db0, s) && h < |s.handlers|
    ensures RowsInv(db0, StepHandler(s, h, e))
  {
    hide HandlerInsert, RowsInv, Inserted;
    var s' := StepHandler(s, h, e);
    HandlerFrame(s, h, e);
    if e.DoInsert? && s.handlers[h].pc.Insert? {
      InsertFrame(s, h, e.t, e.reference, e.outcome);
      if Inserted(s, s', h, e.t, e.reference) {
        InsertedRows(db0, s, s', h, e.t, e.reference);
      } else {
        SameRows(db0, s, s');
      }
    } else {
      SameRows(db0, s, s');
    }
  }

  lemma IdsSnoc(work: seq<Accepted>, a: Accepted)
    ensures Ids(work + [a]) == Ids(work) + {a.txn}
  {
    var longer := work + [a];
    forall t | t in Ids(work) + {a.txn} ensures t in Ids(longer) {
      if t in Ids(work) {
        var i :| 0 <= i < |work| && work[i].txn == t;
        assert longer[i] == work[i];
      } else {
        assert longer[|work|] == a;
      }
    }
  }

  /** A step of a consumer changes no row but that of the message it works on. */
  lemma ConsumerTouches(s: State, c: nat, e: ConsumerEvent, t: TxnId)
    requires c < |s.consumers| && QueueRefers(s) && SnapshotsHeld(s)
    requires InProgress(s.consumers[c].pc).Some? ==> t != InProgress(s.consumers[c].pc).value.txn
    requires s.consumers[c].inbox != [] ==> t != s.consumers[c].inbox[0].txn
    ensures
      var s' := StepConsumer(s, c, e);
      s'.db.txns.Keys == s.db.txns.Keys && (t in s.db.txns ==> s'.db.txns[t] == s.db.txns[t])
  {
    hide Validates;
    ConsumerStores(s, c, e);
    assert ConsumerRefers(s.db, s.consumers[c]);
    assert ConsumerSnapshot(s.db, s.consumers[c].pc);
  }

  /** The step touches none of the rows that no message is about. */
  lemma OthersUntouched(s: State, c: nat, e: ConsumerEvent)
    requires c < |s.consumers| && QueueInv(s) && QueueRefers(s) && SnapshotsHeld(s)
    ensures
      var s' := StepConsumer(s, c, e);
      forall t :: t in s.db.txns && t !in AsyncRows(s.hist.accepted) ==>
        t in s'.db.txns && s'.db.txns[t] == s.db.txns[t]
  {
    hide StepConsumer, QueueRefers, SnapshotsHeld, UntouchedInv, AsyncRows;
    assert ConsumerEnqueued(s.hist, s.consumers[c]);
    forall t | t in s.db.txns && t !in AsyncRows(s.hist.accepted)
      ensures t in StepConsumer(s, c, e).db.txns && StepConsumer(s, c, e).db.txns[t] == s.db.txns[t]
    {
      ConsumerTouches(s, c, e, t);
    }
  }

  lemma ConsumerRows(db0: Db, s: State, c: nat, e: ConsumerEvent)
    requires RowsInv(db0, s) && c < |s.consumers| && QueueInv(s) && QueueRefers(s) && SnapshotsHeld(s)
    requires Distinct(s.hist.accepted)
    ensures RowsInv(db0, StepConsumer(s, c, e))
  {
    hide StepConsumer, QueueRefers, SnapshotsHeld, QueueInv, Ids;
    ConsumerFrame(s, c, e);
    StepConsumerKeys(s, c, e);
    OthersUntouched(s, c, e);
    forall i | 0 <= i < |s.hist.accepted| && s.hist.accepted[i].sync
      ensures s.hist.accepted[i].txn !in AsyncRows(s.hist.accepted)
    {}
  }

  lemma StepConsumerKeys(s: State, c: nat, e: ConsumerEvent)
    requires c < |s.consumers| && SnapshotsHeld(s)
    ensures StepConsumer(s, c, e).db.txns.Keys == s.db.txns.Keys
  {}

  lemma SyncedRows(db0: Db, s: State, s': State, v: nat, t: TxnId, reference: string)
    requires RowsInv(db0, s) && Synced(s, s', v, t, reference)
    ensures RowsInv(db0, s')
  {
    hide Ids, Delta;
    IdsSnoc(s.hist.accepted, Accepted(t, s.syncs[v].req, true));
  }

  lemma SyncRows(db0: Db, s: State, v: nat, e: SyncEvent)
    requires RowsInv(db0, s) && v < |s.syncs|
    ensures RowsInv(db0, StepSync(s, v, e))
  {
    hide StepSync, RowsInv, Synced;
    var s' := StepSync(s, v, e);
    SyncFrame(s, v, e);
    if e.DoSyncCommit? && Synced(s, s', v, e.t, e.reference) {
      SyncedRows(db0, s, s', v, e.t, e.reference);
    } else {
      SameRows(db0, s, s');
    }
  }

  lemma RowsKept(db0: Db, s: State, e: Event)
    requires RowsInv(db0, s) && QueueInv(s) && QueueRefers(s) && SnapshotsHeld(s) && Distinct(s.hist.accepted)
    ensures RowsInv(db0, Next(s, e))
  {
    hide StepHandler, StepConsumer, StepSync, StepReader, QueueInv, QueueRefers, SnapshotsHeld, Distinct;
    match e
    case OnHandler(h, he) => if h < |s.handlers| { HandlerRows(db0, s, h, he); }
    case OnConsumer(c, ce) => if c < |s.consumers| { ConsumerRows(db0, s, c, ce); }
    case OnSync(v, ve) => if v < |s.syncs| { SyncRows(db0, s, v, ve); }
    case OnReader(r, re) => if r < |s.readers| { ReaderFrame(s, r, re); }
    case _ =>
  }

  lemma HandlerActive(s: State, h: nat, e: HandlerEvent)
    requires ActiveInv(s) && h < |s.handlers|
    ensures ActiveInv(StepHandler(s, h, e))
  {
    hide Insertable, Live;
    HandlerFrame(s, h, e);
    match e
    case DoInsert(_, _, _) =>
    case _ =>
  }

  lemma SyncActive(s: State, v: nat, e: SyncEvent)
    requires ActiveInv(s) && v < |s.syncs| && DbAdvances(s.db, StepSync(s, v, e).db)
    ensures ActiveInv(StepSync(s, v, e))
  {}

  lemma ActiveKept(s: State, e: Event)
    requires ActiveInv(s) && SnapshotsHeld(s)
    ensures ActiveInv(Next(s, e))
  {
    hide StepHandler, StepConsumer, StepSync, StepReader, SnapshotsHeld;
    StepAdvances(s, e);
    match e
    case OnHandler(h, he) => if h < |s.handlers| { HandlerActive(s, h, he); }
    case OnConsumer(c, ce) => if c < |s.consumers| { ConsumerFrame(s, c, ce); }
    case OnSync(v, ve) => if v < |s.syncs| { SyncActive(s, v, ve); }
    case OnReader(r, re) => if r < |s.readers| { ReaderFrame(s, r, re); }
    case _ =>
  }

  lemma {:induction false} RefinementInvHolds(tr: seq<State>, es: seq<Event>, i: nat)
    requires Behavior(tr, es) && i <= |es|
    ensures CountedInv(tr[i]) && RowsInv(tr[0].db, tr[i]) && ActiveInv(tr[i])
    decreases i
  {
    hide Next, QueueInv, SnapshotsHeld;
    if i > 0 {
      RefinementInvHolds(tr, es, i - 1);
      QueueHolds(tr, es, i - 1);
      LedgerHolds(tr, es, i - 1);
      ReferencesHold(tr, es, i - 1);
      CountedKept(tr[i - 1], es[i - 1]);
      assert Distinct(tr[i - 1].hist.accepted) by { CountedDistinct(tr[i - 1]); }
      RowsKept(tr[0].db, tr[i - 1], es[i - 1]);
      ActiveKept(tr[i - 1], es[i - 1]);
      assert tr[i - 1 + 1] == Next(tr[i - 1], es[i - 1]);
    }
  }

  lemma CountedDistinct(s: State)
    requires CountedInv(s)
    ensures Distinct(s.hist.accepted)
  {}

  // ---- The specification's own sums ----------------------------------------

  lemma {:induction false} PlainFront(work: seq<Accepted>, i: nat, u: UserId)
    requires i < |work|
    ensures Plain(work, u) == Plain(work[..i] + work[i + 1..], u) + Effect(work[i].req, u)
    decreases |work|
  {
    var front, a := work[..|work| - 1], work[|work| - 1];
    if i == |work| - 1 {
      assert work[..i] + work[i + 1..] == front;
    } else {
      PlainFront(front, i, u);
      assert front[..i] + front[i + 1..] + [a] == work[..i] + work[i + 1..];
      PlainSnoc(front[..i] + front[i + 1..], a, u);
    }
  }

  /** Taking the last of `a` out of both leaves permutations. */
  lemma WithoutLast(a: seq<Accepted>, b: seq<Accepted>, i: nat)
    requires a != [] && multiset(a) == multiset(b) && i < |b| && b[i] == a[|a| - 1]
    ensures multiset(a[..|a| - 1]) == multiset(b[..i] + b[i + 1..])
  {
    assert a == a[..|a| - 1] + [b[i]];
    assert b == b[..i] + [b[i]] + b[i + 1..];
    assert multiset(a[..|a| - 1]) == multiset(a) - multiset{b[i]};
    assert multiset(b[..i] + b[i + 1..]) == multiset(b) - multiset{b[i]};
  }

  /** The order of the requests does not matter to any balance. */
  lemma {:induction false} PlainPermutes(a: seq<Accepted>, b: seq<Accepted>, u: UserId)
    requires multiset(a) == multiset(b)
    ensures Plain(a, u) == Plain(b, u)
    decreases |a|
  {
    hide Effect;
    assert |a| == |multiset(a)| == |multiset(b)| == |b|;
    if a != [] {
      var last := a[|a| - 1];
      assert last in multiset(b);
      var i :| 0 <= i < |b| && b[i] == last;
      WithoutLast(a, b, i);
      PlainPermutes(a[..|a| - 1], b[..i] + b[i + 1..], u);
      PlainFront(b, i, u);
    }
  }

  /** The users and rows of `db` are those of `db0` with each request's effect and completed row added. */
  ghost predicate Ran(db0: Db, db: Db, work: seq<Accepted>) {
    RanUsers(db0, db, work) && RanRows(db0, db, work)
  }

  ghost predicate RanUsers(db0: Db, db: Db, work: seq<Accepted>) {
    && db.users.Keys == db0.users.Keys
    && (forall u :: u in db0.users ==>
          && db.users[u].active == db0.users[u].active
          && db.users[u].balance == db0.users[u].balance + Plain(work, u))
  }

  ghost predicate RanRows(db0: Db, db: Db, work: seq<Accepted>) {
    && db.txns.Keys == db0.txns.Keys + Ids(work)
    && (forall t :: t in db0.txns ==> db.txns[t] == db0.txns[t])
    && (forall a :: a in work ==> a.txn in db.txns && db.txns[a.txn] == NewRow(a.req, "", Completed, 0))
  }

  lemma SyncOneUsers(db0: Db, db: Db, front: seq<Accepted>, a: Accepted)
    requires RanUsers(db0, db, front) && UserActive(db0, a.req.user)
    requires Bound(a.req) && a.txn !in db.txns
    ensures RanUsers(db0, SyncOne(db, a), front + [a])
  {}

  lemma SyncOneRows(db0: Db, db: Db, front: seq<Accepted>, a: Accepted)
    requires RanRows(db0, db, front) && UserActive(db, a.req.user)
    requires Bound(a.req) && a.txn !in db.txns
    ensures RanRows(db0, SyncOne(db, a), front + [a])
  {
    IdsSnoc(front, a);
  }

  lemma SyncOneRuns(db0: Db, db: Db, front: seq<Accepted>, a: Accepted)
    requires Ran(db0, db, front) && Distinct(front + [a])
    requires UserActive(db0, a.req.user) && Bound(a.req) && a.txn !in db0.txns
    ensures Ran(db0, SyncOne(db, a), front + [a])
  {
    hide SyncOne, Plain;
    var work := front + [a];
    forall i | 0 <= i < |front| ensures front[i].txn != a.txn {
      assert work[i] == front[i] && work[|front|] == a;
    }
    assert a.txn !in Ids(front);
    SyncOneUsers(db0, db, front, a);
    SyncOneRows(db0, db, front, a);
  }

  /** Any sequence of acceptable requests runs through. */
  lemma {:induction false} SyncAllRuns(db0: Db, work: seq<Accepted>)
    requires Distinct(work)
    requires forall a :: a in work ==> UserActive(db0, a.req.user) && Bound(a.req) && a.txn !in db0.txns
    ensures Ran(db0, SyncAll(db0, work), work)
    decreases |work|
  {
    hide SyncOne, Ran, UserActive;
    if work != [] {
      var front, a := work[..|work| - 1], work[|work| - 1];
      assert work == front + [a];
      assert a in work;
      forall b | b in front ensures b in work {}
      SyncAllRuns(db0, front);
      SyncOneRuns(db0, SyncAll(db0, front), front, a);
    } else {
      RanNothing(db0);
    }
  }

  lemma RanNothing(db0: Db)
    ensures Ran(db0, db0, [])
  {}

  // ---- The theorems --------------------------------------------------------

  /** The acceptance history can be replayed through the synchronous path in any order. */
  lemma Replayable(tr: seq<State>, es: seq<Event>, i: nat, order: seq<Accepted>)
    requires Behavior(tr, es) && i <= |es| && multiset(order) == multiset(tr[i].hist.accepted)
    ensures Distinct(order)
    ensures forall a :: a in order ==> UserActive(tr[0].db, a.req.user) && Bound(a.req) && a.txn !in tr[0].db.txns
  {
    var s := tr[i];
    RefinementInvHolds(tr, es, i);
    ReferencesHold(tr, es, i);
    LedgerHolds(tr, es, i);
    forall a | a in order ensures UserActive(tr[0].db, a.req.user) && Bound(a.req) && a.txn !in tr[0].db.txns {
      assert a in multiset(order);
      assert a in s.hist.accepted;
      assert AcceptedRefers(s.db, a);
    }
    PermutationDistinct(s.hist.accepted, order);
  }

  lemma DistinctOnce(a: seq<Accepted>, x: Accepted)
    requires Distinct(a)
    ensures multiset(a)[x] <= 1
  {
    if x in a {
      var p :| 0 <= p < |a| && a[p] == x;
      assert a == a[..p] + [x] + a[p + 1..];
      assert x !in a[..p] && x !in a[p + 1..];
    }
  }

  lemma TwiceCounted(b: seq<Accepted>, i: nat, j: nat)
    requires i < j < |b| && b[i] == b[j]
    ensures multiset(b)[b[i]] >= 2
  {
    assert b == b[..i] + [b[i]] + b[i + 1..j] + [b[j]] + b[j + 1..];
  }

  lemma PermutationDistinct(a: seq<Accepted>, b: seq<Accepted>)
    requires Distinct(a) && multiset(a) == multiset(b)
    ensures Distinct(b)
  {
    forall i, j | 0 <= i < j < |b| ensures b[i].txn != b[j].txn {
      var x, y := b[i], b[j];
      assert x in multiset(b) && y in multiset(b);
      assert x in a && y in a;
      DistinctOnce(a, x);
      if x == y { TwiceCounted(b, i, j); }
    }
  }

  /** In every reachable state, the balances are those of the synchronous path run on the accepted requests in any
      order, off by exactly the sum, over the user's requests, of (times committed - 1) times the signed amount. */
  lemma DeviationIsExact(tr: seq<State>, es: seq<Event>, i: nat, order: seq<Accepted>, u: UserId)
    requires Behavior(tr, es) && i <= |es| && multiset(order) == multiset(tr[i].hist.accepted)
    requires u in tr[0].db.users
    ensures u in tr[i].db.users && u in SyncAll(tr[0].db, order).users
    ensures tr[i].db.users[u].balance
         == SyncAll(tr[0].db, order).users[u].balance + Excess(tr[i].hist.log, tr[i].hist.accepted, u)
  {
    RefinementInvHolds(tr, es, i);
    LedgerHolds(tr, es, i);
    Replayable(tr, es, i, order);
    SyncAllRuns(tr[0].db, order);
    PlainPermutes(order, tr[i].hist.accepted, u);
  }

  /** Nothing is left to do for any asynchronous row. */
  ghost predicate Drained(s: State) {
    && s.ready == []
    && (forall h :: 0 <= h < |s.handlers| ==> InHand(s.handlers[h].pc).None?)
    && (forall c :: 0 <= c < |s.consumers| ==> s.consumers[c].inbox == [] && s.consumers[c].pc.Idle?)
  }

  lemma DrainedIsAcked(s: State, t: TxnId)
    requires WorkInv(s) && Drained(s) && t in AsyncRows(s.hist.accepted) && t !in s.hist.lost
    ensures t in s.hist.acked
  {}

  /** What the slips of the asynchronous requests add up to for a user. */
  ghost function SlipCost(tr: seq<State>, es: seq<Event>, i: nat, work: seq<Accepted>, u: UserId): int
    requires |tr| == |es| + 1 && i <= |es|
    decreases |work|
  {
    if work == [] then 0
    else
      var a := work[|work| - 1];
      SlipCost(tr, es, i, work[..|work| - 1], u) + (if a.sync then 0 else Slips(tr, es, i, a.txn)) * Effect(a.req, u)
  }

  lemma {:induction false} ExcessIsSlips(tr: seq<State>, es: seq<Event>, i: nat, work: seq<Accepted>, u: UserId)
    requires |tr| == |es| + 1 && i <= |es|
    requires forall a :: a in work ==> Times(tr[i].hist.log, a) == 1 + if a.sync then 0 else Slips(tr, es, i, a.txn)
    ensures Excess(tr[i].hist.log, work, u) == SlipCost(tr, es, i, work, u)
    decreases |work|
  {
    hide Times, Effect, Slips;
    if work != [] {
      assert work[|work| - 1] in work;
      forall b | b in work[..|work| - 1] ensures b in work {}
      ExcessIsSlips(tr, es, i, work[..|work| - 1], u);
    }
  }

  /** Every accepted request has been committed once, and once more for each slip. */
  lemma DrainedTimes(tr: seq<State>, es: seq<Event>, i: nat, a: Accepted)
    requires Behavior(tr, es) && i <= |es| && Drained(tr[i]) && tr[i].hist.lost == {} && a in tr[i].hist.accepted
    ensures Times(tr[i].hist.log, a) == 1 + if a.sync then 0 else Slips(tr, es, i, a.txn)
  {
    if !a.sync {
      WorkHolds(tr, es, i);
      DrainedIsAcked(tr[i], a.txn);
      PassesCounted(tr, es, i, a.txn);
    }
  }

  /** A drained run has completed exactly the rows it neither lost to the queue nor left to a stray consumer. */
  lemma DrainedStatus(tr: seq<State>, es: seq<Event>, i: nat, a: Accepted)
    requires Behavior(tr, es) && i <= |es| && Drained(tr[i]) && a in tr[i].hist.accepted
    ensures a.txn in tr[i].db.txns
    ensures tr[i].db.txns[a.txn].status.Completed? <==>
              a.sync || (a.txn !in tr[i].hist.lost && !Astray(tr, es, i, a.txn))
  {
    hide Next, Initial, Astray;
    RefinementInvHolds(tr, es, i);
    if !a.sync {
      if a.txn in tr[i].hist.lost {
        NeverEnqueuedStaysPending(tr, es, i, i, a.txn);
      } else {
        WorkHolds(tr, es, i);
        DrainedIsAcked(tr[i], a.txn);
        AckedIsCompletedIff(tr, es, i, i, a.txn);
      }
    }
  }

  /** Drained with nothing lost, the balances are off by exactly the slips' signed amounts. */
  lemma DrainedDeviation(tr: seq<State>, es: seq<Event>, i: nat, order: seq<Accepted>, u: UserId)
    requires Behavior(tr, es) && i <= |es| && Drained(tr[i]) && tr[i].hist.lost == {}
    requires multiset(order) == multiset(tr[i].hist.accepted) && u in tr[0].db.users
    ensures u in tr[i].db.users && u in SyncAll(tr[0].db, order).users
    ensures tr[i].db.users[u].balance
         == SyncAll(tr[0].db, order).users[u].balance + SlipCost(tr, es, i, tr[i].hist.accepted, u)
  {
    hide Drained, Slips, Times, Behavior;
    DeviationIsExact(tr, es, i, order, u);
    BehaviorStep(tr, es);
    forall a | a in tr[i].hist.accepted
      ensures Times(tr[i].hist.log, a) == 1 + if a.sync then 0 else Slips(tr, es, i, a.txn)
    {
      DrainedTimes(tr, es, i, a);
    }
    ExcessIsSlips(tr, es, i, tr[i].hist.accepted, u);
  }

  /** The specification's row of an accepted request is the run's, once that is completed. */
  lemma SpecRow(db0: Db, s: State, order: seq<Accepted>, spec: Db, a: Accepted)
    requires ReferenceInv(s) && multiset(order) == multiset(s.hist.accepted) && a in s.hist.accepted
    requires RanRows(db0, spec, order)
    ensures a.txn in s.db.txns && a.txn in spec.txns
    ensures SameRow(s.db.txns[a.txn], spec.txns[a.txn]) <==> s.db.txns[a.txn].status.Completed?
  {
    assert AcceptedRefers(s.db, a);
    assert a in multiset(order);
    assert a in order;
  }

  /** Rows agree with the specification's exactly when all accepted requests are completed. */
  lemma SpecRows(db0: Db, s: State, order: seq<Accepted>, spec: Db)
    requires RowsInv(db0, s) && ReferenceInv(s) && multiset(order) == multiset(s.hist.accepted)
    requires RanRows(db0, spec, order)
    ensures s.db.txns.Keys == spec.txns.Keys
    ensures forall a :: a in s.hist.accepted ==> a.txn in s.db.txns
    ensures (forall t :: t in s.db.txns ==> SameRow(s.db.txns[t], spec.txns[t]))
       <==> (forall a :: a in s.hist.accepted ==> s.db.txns[a.txn].status.Completed?)
  {
    hide ReferenceInv, SameRow;
    SameIds(order, s.hist.accepted);
    forall a | a in s.hist.accepted
      ensures a.txn in s.db.txns && a.txn in spec.txns
      ensures SameRow(s.db.txns[a.txn], spec.txns[a.txn]) <==> s.db.txns[a.txn].status.Completed?
    {
      SpecRow(db0, s, order, spec, a);
    }
    forall t | t in s.db.txns && t in db0.txns ensures SameRow(s.db.txns[t], spec.txns[t]) {
      RowIsItself(s.db.txns[t]);
    }
    forall t | t in s.db.txns && t !in db0.txns ensures exists a :: a in s.hist.accepted && a.txn == t {
      var j :| 0 <= j < |s.hist.accepted| && s.hist.accepted[j].txn == t;
      assert s.hist.accepted[j] in s.hist.accepted;
    }
  }

  lemma RowIsItself(r: Row)
    ensures SameRow(r, r)
  {}

  /** The outcomes agree exactly when all accepted requests are completed and no user's excess is left. */
  lemma SameExactly(db0: Db, s: State, order: seq<Accepted>, spec: Db)
    requires LedgerInv(db0, s) && RowsInv(db0, s) && ReferenceInv(s) && Ran(db0, spec, order)
    requires multiset(order) == multiset(s.hist.accepted)
    requires forall u :: u in db0.users ==>
               && u in s.db.users && u in spec.users
               && s.db.users[u].balance == spec.users[u].balance + Excess(s.hist.log, s.hist.accepted, u)
    ensures forall a :: a in s.hist.accepted ==> a.txn in s.db.txns
    ensures SameOutcome(s.db, spec) <==>
              && (forall a :: a in s.hist.accepted ==> s.db.txns[a.txn].status.Completed?)
              && (forall u :: u in db0.users ==> Excess(s.hist.log, s.hist.accepted, u) == 0)
  {
    hide RowsInv, ReferenceInv, SnapshotsHeld, RanRows, SameRow, Excess;
    SpecRows(db0, s, order, spec);
  }

  /** Every asynchronous row reached the queue and was not left to a stray consumer. */
  ghost predicate AllThrough(tr: seq<State>, es: seq<Event>, i: nat)
    requires |tr| == |es| + 1 && i <= |es|
  {
    forall t :: t in AsyncRows(tr[i].hist.accepted) ==> t !in tr[i].hist.lost && !Astray(tr, es, i, t)
  }

  lemma DrainedCompletes(tr: seq<State>, es: seq<Event>, i: nat)
    requires Behavior(tr, es) && i <= |es| && Drained(tr[i])
    ensures forall a :: a in tr[i].hist.accepted ==> a.txn in tr[i].db.txns
    ensures (forall a :: a in tr[i].hist.accepted ==> tr[i].db.txns[a.txn].status.Completed?) <==> AllThrough(tr, es, i)
  {
    hide Drained, Astray, Initial, Next;
    var s := tr[i];
    forall a | a in s.hist.accepted
      ensures a.txn in s.db.txns
      ensures s.db.txns[a.txn].status.Completed? <==> a.sync || (a.txn !in s.hist.lost && !Astray(tr, es, i, a.txn))
    {
      DrainedStatus(tr, es, i, a);
    }
    forall t | t in AsyncRows(s.hist.accepted) ensures exists a :: a in s.hist.accepted && !a.sync && a.txn == t {
      var j :| 0 <= j < |s.hist.accepted| && !s.hist.accepted[j].sync && s.hist.accepted[j].txn == t;
      assert s.hist.accepted[j] in s.hist.accepted;
    }
  }

  /** In terms of the log: the outcomes agree when all rows are through and no user has commits in excess. */
  lemma DrainedRefinesByExcess(tr: seq<State>, es: seq<Event>, i: nat, order: seq<Accepted>)
    requires Behavior(tr, es) && i <= |es| && Drained(tr[i])
    requires multiset(order) == multiset(tr[i].hist.accepted)
    ensures SameOutcome(tr[i].db, SyncAll(tr[0].db, order)) <==>
              && AllThrough(tr, es, i)
              && (forall u :: u in tr[0].db.users ==> Excess(tr[i].hist.log, tr[i].hist.accepted, u) == 0)
  {
    hide *;
    BehaviorStep(tr, es);
    DrainedCompletes(tr, es, i);
    RefinementInvHolds(tr, es, i);
    ReferencesHold(tr, es, i);
    LedgerHolds(tr, es, i);
    Replayable(tr, es, i, order);
    SyncAllRuns(tr[0].db, order);
    forall u | u in tr[0].db.users
      ensures u in tr[i].db.users && u in SyncAll(tr[0].db, order).users
      ensures tr[i].db.users[u].balance
           == SyncAll(tr[0].db, order).users[u].balance + Excess(tr[i].hist.log, tr[i].hist.accepted, u)
    {
      DeviationIsExact(tr, es, i, order, u);
    }
    SameExactly(tr[0].db, tr[i], order, SyncAll(tr[0].db, order));
  }

  lemma ThroughLosesNothing(tr: seq<State>, es: seq<Event>, i: nat)
    requires Behavior(tr, es) && i <= |es| && AllThrough(tr, es, i)
    ensures tr[i].hist.lost == {}
  {
    hide Behavior;
    BehaviorStep(tr, es);
    WorkHolds(tr, es, i);
    forall t ensures t in tr[i].hist.lost ==> t in AsyncRows(tr[i].hist.accepted) {
      assert At(tr[i], IsLost, t) <==> t in tr[i].hist.lost;
    }
  }

  /** Refinement, exactly: a run that has drained has left every balance and every row as the synchronous path does when
      given the accepted requests in any order, if and only if every row reached the queue, none was left to a
      stray consumer, and each user's slips cancel out. */
  lemma DrainedRefinesIff(tr: seq<State>, es: seq<Event>, i: nat, order: seq<Accepted>)
    requires Behavior(tr, es) && i <= |es| && Drained(tr[i])
    requires multiset(order) == multiset(tr[i].hist.accepted)
    ensures SameOutcome(tr[i].db, SyncAll(tr[0].db, order)) <==>
              && AllThrough(tr, es, i)
              && (forall u :: u in tr[0].db.users ==> SlipCost(tr, es, i, tr[i].hist.accepted, u) == 0)
  {
    hide Behavior, Drained, SameOutcome, SyncAll, AllThrough, Times, Slips;
    BehaviorStep(tr, es);
    DrainedRefinesByExcess(tr, es, i, order);
    if AllThrough(tr, es, i) {
      ThroughLosesNothing(tr, es, i);
      forall a | a in tr[i].hist.accepted
        ensures Times(tr[i].hist.log, a) == 1 + if a.sync then 0 else Slips(tr, es, i, a.txn)
      {
        DrainedTimes(tr, es, i, a);
      }
      forall u ensures Excess(tr[i].hist.log, tr[i].hist.accepted, u) == SlipCost(tr, es, i, tr[i].hist.accepted, u) {
        ExcessIsSlips(tr, es, i, tr[i].hist.accepted, u);
      }
    }
  }

  /** Refinement: without lost rows, slips and stray claims, the drained pipeline is the synchronous path. */
  lemma DrainedRefinesSynchronous(tr: seq<State>, es: seq<Event>, i: nat, order: seq<Accepted>)
    requires Behavior(tr, es) && i <= |es| && Drained(tr[i])
    requires multiset(order) == multiset(tr[i].hist.accepted)
    requires tr[i].hist.lost == {}
    requires forall a :: a in tr[i].hist.accepted ==> Slips(tr, es, i, a.txn) == 0 && !Astray(tr, es, i, a.txn)
    ensures SameOutcome(tr[i].db, SyncAll(tr[0].db, order))
  {
    hide Behavior, Drained, SameOutcome, SyncAll, Slips, Astray;
    BehaviorStep(tr, es);
    DrainedRefinesIff(tr, es, i, order);
    forall t | t in AsyncRows(tr[i].hist.accepted) ensures !Astray(tr, es, i, t) {
      var j :| 0 <= j < |tr[i].hist.accepted| && tr[i].hist.accepted[j].txn == t;
      assert tr[i].hist.accepted[j] in tr[i].hist.accepted;
    }
    forall u | u in tr[0].db.users ensures SlipCost(tr, es, i, tr[i].hist.accepted, u) == 0 {
      NoSlipsNoCost(tr, es, i, tr[i].hist.accepted, u);
    }
  }

  lemma {:induction false} NoSlipsNoCost(tr: seq<State>, es: seq<Event>, i: nat, work: seq<Accepted>, u: UserId)
    requires |tr| == |es| + 1 && i <= |es|
    requires forall a :: a in work ==> Slips(tr, es, i, a.txn) == 0
    ensures SlipCost(tr, es, i, work, u) == 0
    decreases |work|
  {
    hide Slips;
    if work != [] {
      assert work[|work| - 1] in work;
      forall b | b in work[..|work| - 1] ensures b in work {}
      NoSlipsNoCost(tr, es, i, work[..|work| - 1], u);
    }
  }

  lemma SameIds(a: seq<Accepted>, b: seq<Accepted>)
    requires multiset(a) == multiset(b)
    ensures Ids(a) == Ids(b)
  {
    forall i | 0 <= i < |a| ensures a[i].txn in Ids(b) {
      assert a[i] in multiset(b);
      assert a[i] in b;
    }
    forall i | 0 <= i < |b| ensures b[i].txn in Ids(a) {
      assert b[i] in multiset(a);
      assert b[i] in a;
    }
  }
}

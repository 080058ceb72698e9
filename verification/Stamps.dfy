/** What every column that the service writes holds: the status and times of a row are those of its last write. */
module Stamps {
  import opened Domain
  import opened Stores
  import opened Protocol
  import opened Frames
  import opened Traces
  import opened Ledger
  import opened References
  import opened ExactlyOnce

  // ---- When a transaction began --------------------------------------------

  /** The clock at consumer `c`'s last successful Begin among the first `i` steps. */
  ghost function BegunAt(tr: seq<State>, es: seq<Event>, i: nat, c: nat): Time
    requires |tr| == |es| + 1 && i <= |es|
  {
    if i == 0 then 0
    else if c < |tr[i - 1].consumers| && tr[i - 1].consumers[c].pc.Claimed? && es[i - 1] == OnConsumer(c, Begin(true))
    then tr[i - 1].clock
    else BegunAt(tr, es, i - 1, c)
  }

  ghost function SyncBegunAt(tr: seq<State>, es: seq<Event>, i: nat, v: nat): Time
    requires |tr| == |es| + 1 && i <= |es|
  {
    if i == 0 then 0
    else if v < |tr[i - 1].syncs| && tr[i - 1].syncs[v].pc.SyncBegin? && es[i - 1] == OnSync(v, DoSyncBegin(true))
    then tr[i - 1].clock
    else SyncBegunAt(tr, es, i - 1, v)
  }

  function SnapOf(pc: ConsumerPc): Option<Snapshot> {
    match pc
    case Begun(_, snap) => Some(snap)
    case StatusSet(_, snap) => Some(snap)
    case BalanceSet(_, snap) => Some(snap)
    case _ => None
  }

  function SyncSnapOf(pc: SyncPc): Option<Snapshot> {
    match pc
    case SyncInsert(snap) => Some(snap)
    case SyncBalance(snap) => Some(snap)
    case SyncCommit(snap) => Some(snap)
    case _ => None
  }

  lemma OwnSnap(s: State, c: nat, e: ConsumerEvent)
    requires c < |s.consumers|
    ensures
      var pc, pc' := s.consumers[c].pc, StepConsumer(s, c, e).consumers[c].pc;
      SnapOf(pc').Some? ==>
        if pc.Claimed? && e == Begin(true) then SnapOf(pc').value.at == s.clock else SnapOf(pc') == SnapOf(pc)
  {
    hide MarkProcessing, InstallPass, Validates, Delta, CacheDelete, Listed;
  }

  lemma OwnSyncSnap(s: State, v: nat, e: SyncEvent)
    requires v < |s.syncs|
    ensures
      var pc, pc' := s.syncs[v].pc, StepSync(s, v, e).syncs[v].pc;
      SyncSnapOf(pc').Some? ==>
        if pc.SyncBegin? && e == DoSyncBegin(true) then SyncSnapOf(pc').value.at == s.clock
        else SyncSnapOf(pc') == SyncSnapOf(pc)
  {
    hide InstallSync, Insertable, AccountUnchanged, Delta, UserActive;
  }

  lemma StepSnap(s: State, e: Event, c: nat)
    requires c < |s.consumers| && c < |Next(s, e).consumers|
    ensures
      var pc, pc' := s.consumers[c].pc, Next(s, e).consumers[c].pc;
      SnapOf(pc').Some? ==>
        if pc.Claimed? && e == OnConsumer(c, Begin(true)) then SnapOf(pc').value.at == s.clock
        else SnapOf(pc') == SnapOf(pc)
  {
    hide StepHandler, StepConsumer, StepSync, StepReader, SnapOf;
    match e
    case OnHandler(h, he) => if h < |s.handlers| { HandlerFrame(s, h, he); }
    case OnConsumer(d, ce) => if d < |s.consumers| { ConsumerFrame(s, d, ce); OwnSnap(s, d, ce); }
    case OnSync(v, ve) => if v < |s.syncs| { SyncFrame(s, v, ve); }
    case OnReader(r, re) => if r < |s.readers| { ReaderFrame(s, r, re); }
    case _ =>
  }

  lemma StepSyncSnap(s: State, e: Event, v: nat)
    requires v < |s.syncs| && v < |Next(s, e).syncs|
    ensures
      var pc, pc' := s.syncs[v].pc, Next(s, e).syncs[v].pc;
      SyncSnapOf(pc').Some? ==>
        if pc.SyncBegin? && e == OnSync(v, DoSyncBegin(true)) then SyncSnapOf(pc').value.at == s.clock
        else SyncSnapOf(pc') == SyncSnapOf(pc)
  {
    hide StepHandler, StepConsumer, StepSync, StepReader, SyncSnapOf;
    match e
    case OnHandler(h, he) => if h < |s.handlers| { HandlerFrame(s, h, he); }
    case OnConsumer(d, ce) => if d < |s.consumers| { ConsumerFrame(s, d, ce); }
    case OnSync(w, ve) => if w < |s.syncs| { SyncFrame(s, w, ve); OwnSyncSnap(s, w, ve); }
    case OnReader(r, re) => if r < |s.readers| { ReaderFrame(s, r, re); }
    case _ =>
  }

  /** Consumers neither come nor go; requests only come. */
  lemma Population(s: State, e: Event)
    ensures |Next(s, e).consumers| == |s.consumers| && |s.syncs| <= |Next(s, e).syncs|
    ensures forall v :: |s.syncs| <= v < |Next(s, e).syncs| ==> SyncSnapOf(Next(s, e).syncs[v].pc).None?
  {
    hide StepHandler, StepConsumer, StepSync, StepReader;
    match e
    case OnHandler(h, he) => if h < |s.handlers| { HandlerFrame(s, h, he); }
    case OnConsumer(c, ce) => if c < |s.consumers| { ConsumerFrame(s, c, ce); }
    case OnSync(v, ve) => if v < |s.syncs| { SyncFrame(s, v, ve); }
    case OnReader(r, re) => if r < |s.readers| { ReaderFrame(s, r, re); }
    case _ =>
  }

  lemma {:induction false} SnapshotsAreOfTheirBegin(tr: seq<State>, es: seq<Event>, i: nat, c: nat)
    requires Behavior(tr, es) && i <= |es| && c < |tr[i].consumers|
    ensures SnapOf(tr[i].consumers[c].pc).Some? ==> SnapOf(tr[i].consumers[c].pc).value.at == BegunAt(tr, es, i, c)
    decreases i
  {
    hide Next, SnapOf;
    if i > 0 {
      assert tr[i - 1 + 1] == Next(tr[i - 1], es[i - 1]);
      Population(tr[i - 1], es[i - 1]);
      SnapshotsAreOfTheirBegin(tr, es, i - 1, c);
      StepSnap(tr[i - 1], es[i - 1], c);
    } else {
      NobodyBegun(tr[0], c);
    }
  }

  lemma NobodyBegun(s: State, c: nat)
    requires Initial(s) && c < |s.consumers|
    ensures SnapOf(s.consumers[c].pc).None?
  {}

  lemma {:induction false} SyncSnapshotsAreOfTheirBegin(tr: seq<State>, es: seq<Event>, i: nat, v: nat)
    requires Behavior(tr, es) && i <= |es| && v < |tr[i].syncs|
    ensures SyncSnapOf(tr[i].syncs[v].pc).Some? ==>
              SyncSnapOf(tr[i].syncs[v].pc).value.at == SyncBegunAt(tr, es, i, v)
    decreases i
  {
    hide Next, SyncSnapOf;
    if i > 0 {
      assert tr[i - 1 + 1] == Next(tr[i - 1], es[i - 1]);
      Population(tr[i - 1], es[i - 1]);
      if v < |tr[i - 1].syncs| {
        SyncSnapshotsAreOfTheirBegin(tr, es, i - 1, v);
        StepSyncSnap(tr[i - 1], es[i - 1], v);
      }
    }
  }

  // ---- What each write leaves ----------------------------------------------

  /** A claim of `t` is applied, whether or not the consumer learns of it. */
  predicate ClaimApplied(s: State, e: Event, t: TxnId) {
    && e.OnConsumer? && e.c < |s.consumers| && e.ce.Claim? && e.ce.outcome != NotDone
    && var k := s.consumers[e.c];
       k.pc.Idle? && k.inbox != [] && k.inbox[0].txn == t
  }

  lemma ClaimWrites(s: State, e: Event, t: TxnId)
    requires ClaimApplied(s, e, t) && t in s.db.txns
    ensures
      var r, r' := s.db.txns[t], Next(s, e).db.txns[t];
      && t in Next(s, e).db.txns
      && r' == Row(r.user, r.kind, r.amount, r.reference, r.description, r.created, Processing, s.clock, r.ver + 1)
  {
    hide ConsumerCommit, ConsumerDeliver, ConsumerCrash, ConsumerDisconnect, ConsumerNotice, ConsumerAck, ConsumerNack;
  }

  lemma PassWrites(s: State, e: Event, t: TxnId)
    requires Completes(s, e, t) && t in s.db.txns && ConsumerRefers(s.db, s.consumers[e.c])
    requires ConsumerSnapshot(s.db, s.consumers[e.c].pc)
    ensures
      var r, r' := s.db.txns[t], Next(s, e).db.txns[t];
      && t in Next(s, e).db.txns
      && r' == Row(r.user, r.kind, r.amount, r.reference, r.description, r.created, Completed,
                   s.consumers[e.c].pc.snap.at, r.ver + 1)
  {
    hide ConsumerCommit, Delta, AccountUnchanged;
    CommitFrame(s, e.c, e.ce.outcome);
  }

  /** Any other step leaves the row as it is. */
  lemma OthersWriteNothing(s: State, e: Event, t: TxnId)
    requires t in s.db.txns && !ClaimApplied(s, e, t) && !Completes(s, e, t)
    ensures t in Next(s, e).db.txns && Next(s, e).db.txns[t] == s.db.txns[t]
  {
    hide StepHandler, StepConsumer, StepSync, StepReader, Validates;
    match e
    case OnHandler(h, he) => if h < |s.handlers| { HandlerLeavesRows(s, h, he, t); }
    case OnConsumer(c, ce) => if c < |s.consumers| { ConsumerWritesElse(s, c, ce, t); }
    case OnSync(v, ve) => if v < |s.syncs| { SyncFrame(s, v, ve); }
    case OnReader(r, re) => if r < |s.readers| { ReaderFrame(s, r, re); }
    case _ =>
  }

  lemma ConsumerWritesElse(s: State, c: nat, e: ConsumerEvent, t: TxnId)
    requires c < |s.consumers| && t in s.db.txns
    requires !ClaimApplied(s, OnConsumer(c, e), t) && !Completes(s, OnConsumer(c, e), t)
    ensures t in StepConsumer(s, c, e).db.txns && StepConsumer(s, c, e).db.txns[t] == s.db.txns[t]
  {
    hide ConsumerCommit, Validates, Delta, Listed;
    ConsumerStores(s, c, e);
    if e.DoCommit? && s.consumers[c].pc.BalanceSet? { CommitFrame(s, c, e.outcome); }
  }

  /** A row begins pending, stamped with the clock, or completed, stamped with its transaction's begin. */
  lemma CreationWrites(s: State, e: Event, t: TxnId)
    requires t !in s.db.txns && t in Next(s, e).db.txns && QueueRefers(s) && SnapshotsHeld(s)
    ensures
      var r := Next(s, e).db.txns[t];
      && r.ver == 0 && r.updated == r.created
      && ((e.OnHandler? && r.status.Pending? && r.created == s.clock)
          || (e.OnSync? && e.v < |s.syncs| && SyncSnapOf(s.syncs[e.v].pc).Some?
              && r.status.Completed? && r.created == SyncSnapOf(s.syncs[e.v].pc).value.at))
  {
    hide StepHandler, StepConsumer, StepSync, StepReader, QueueRefers, SnapshotsHeld;
    match e
    case OnHandler(h, he) => if h < |s.handlers| { HandlerCreates(s, h, he, t); }
    case OnConsumer(c, ce) => if c < |s.consumers| { ConsumerCreatesNone(s, c, ce); }
    case OnSync(v, ve) => if v < |s.syncs| { SyncFrame(s, v, ve); }
    case OnReader(r, re) => if r < |s.readers| { ReaderFrame(s, r, re); }
    case _ =>
  }

  lemma HandlerCreates(s: State, h: nat, e: HandlerEvent, t: TxnId)
    requires h < |s.handlers| && t !in s.db.txns && t in StepHandler(s, h, e).db.txns
    ensures
      var r := StepHandler(s, h, e).db.txns[t];
      r.ver == 0 && r.updated == r.created == s.clock && r.status.Pending?
  {
    hide HandlerInsert;
    HandlerFrame(s, h, e);
    if e.DoInsert? && s.handlers[h].pc.Insert? { InsertFrame(s, h, e.t, e.reference, e.outcome); }
  }

  lemma ConsumerCreatesNone(s: State, c: nat, e: ConsumerEvent)
    requires c < |s.consumers| && SnapshotsHeld(s)
    ensures StepConsumer(s, c, e).db.txns.Keys == s.db.txns.Keys
  {
    hide ConsumerCommit, Validates, Delta, Listed;
    ConsumerStores(s, c, e);
    assert ConsumerSnapshot(s.db, s.consumers[c].pc);
    if e.DoCommit? && s.consumers[c].pc.BalanceSet? { CommitFrame(s, c, e.outcome); }
  }

  // ---- The stamp of a row --------------------------------------------------

  /** `writes` counts the claims and commits of the row. */
  datatype Stamp = Stamp(status: Status, updated: Time, created: Time, writes: nat)

  function StampOf(r: Row): Stamp {
    Stamp(r.status, r.updated, r.created, r.ver)
  }

  /** The stamp that the first `i` steps leave on row `t`, from the events and clocks alone. */
  ghost function StampAt(tr: seq<State>, es: seq<Event>, i: nat, t: TxnId): Stamp
    requires |tr| == |es| + 1 && i <= |es| && t in tr[i].db.txns
  {
    if i == 0 then StampOf(tr[0].db.txns[t])
    else
      var s, e := tr[i - 1], es[i - 1];
      if t !in s.db.txns then
        if e.OnSync? then
          Stamp(Completed, SyncBegunAt(tr, es, i - 1, e.v), SyncBegunAt(tr, es, i - 1, e.v), 0)
        else Stamp(Pending, s.clock, s.clock, 0)
      else
        var was := StampAt(tr, es, i - 1, t);
        if ClaimApplied(s, e, t) then Stamp(Processing, s.clock, was.created, was.writes + 1)
        else if Completes(s, e, t) then Stamp(Completed, BegunAt(tr, es, i - 1, e.c), was.created, was.writes + 1)
        else was
  }

  /** In every reachable state a row's status and `updated_at` are those of its last claim (at its clock) or its last
      committed pass (at the clock of that pass's Begin), whichever came last, and before any those of its creation. */
  lemma {:induction false} RowsAreStamped(tr: seq<State>, es: seq<Event>, i: nat, t: TxnId)
    requires Behavior(tr, es) && i <= |es| && t in tr[i].db.txns
    ensures StampOf(tr[i].db.txns[t]) == StampAt(tr, es, i, t)
    decreases i
  {
    hide Next, Completes, ClaimApplied, Initial, QueueRefers, SnapshotsHeld;
    if i > 0 {
      var s, e := tr[i - 1], es[i - 1];
      assert tr[i - 1 + 1] == Next(s, e);
      ReferencesHold(tr, es, i - 1);
      LedgerHolds(tr, es, i - 1);
      if t !in s.db.txns {
        CreationWrites(s, e, t);
        if e.OnSync? { SyncSnapshotsAreOfTheirBegin(tr, es, i - 1, e.v); }
      } else {
        RowsAreStamped(tr, es, i - 1, t);
        if ClaimApplied(s, e, t) {
          ClaimWrites(s, e, t);
        } else if Completes(s, e, t) {
          CommitStamps(tr, es, i - 1, t);
        } else {
          OthersWriteNothing(s, e, t);
        }
      }
    }
  }

  /** An applied claim stamps the row with the clock of that step. */
  lemma ClaimStamps(tr: seq<State>, es: seq<Event>, i: nat, t: TxnId)
    requires Behavior(tr, es) && i < |es| && ClaimApplied(tr[i], es[i], t) && t in tr[i].db.txns
    ensures t in tr[i + 1].db.txns
    ensures tr[i + 1].db.txns[t].updated == tr[i].clock && tr[i + 1].db.txns[t].status.Processing?
  {
    hide Next, ClaimApplied, Initial;
    ClaimWrites(tr[i], es[i], t);
  }

  /** A committed pass stamps the row with the clock of its own Begin. */
  lemma CommitStamps(tr: seq<State>, es: seq<Event>, i: nat, t: TxnId)
    requires Behavior(tr, es) && i < |es| && Completes(tr[i], es[i], t) && t in tr[i].db.txns
    ensures t in tr[i + 1].db.txns
    ensures
      var r, r' := tr[i].db.txns[t], tr[i + 1].db.txns[t];
      && r'.updated == BegunAt(tr, es, i, es[i].c) && r'.status.Completed?
      && r'.created == r.created && r'.ver == r.ver + 1
  {
    hide Next, Initial;
    var c := es[i].c;
    ReferencesHold(tr, es, i);
    LedgerHolds(tr, es, i);
    SnapshotsAreOfTheirBegin(tr, es, i, c);
    assert ConsumerRefers(tr[i].db, tr[i].consumers[c]);
    assert ConsumerSnapshot(tr[i].db, tr[i].consumers[c].pc);
    PassWrites(tr[i], es[i], t);
  }

  /** While nothing has written it since, a row that the run created was last updated when it was created. */
  lemma {:induction false} UnwrittenIsAsCreated(tr: seq<State>, es: seq<Event>, i: nat, t: TxnId)
    requires Behavior(tr, es) && i <= |es| && t in tr[i].db.txns && t !in tr[0].db.txns && tr[i].db.txns[t].ver == 0
    ensures tr[i].db.txns[t].updated == tr[i].db.txns[t].created
    decreases i
  {
    hide Next, Initial, Completes, ClaimApplied, QueueRefers, SnapshotsHeld;
    if i > 0 {
      var s, e := tr[i - 1], es[i - 1];
      assert tr[i - 1 + 1] == Next(s, e);
      ReferencesHold(tr, es, i - 1);
      LedgerHolds(tr, es, i - 1);
      if t !in s.db.txns {
        CreationWrites(s, e, t);
      } else if ClaimApplied(s, e, t) {
        ClaimWrites(s, e, t);
      } else if Completes(s, e, t) {
        CommitStamps(tr, es, i - 1, t);
      } else {
        OthersWriteNothing(s, e, t);
        UnwrittenIsAsCreated(tr, es, i - 1, t);
      }
    }
  }
}

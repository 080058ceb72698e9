/** When a message commits, how often, and what an ack promises. */
module ExactlyOnce {
  import opened Domain
  import opened Stores
  import opened Protocol
  import opened Frames
  import opened Traces
  import opened References
  import opened Delivery
  import opened Lifecycle

  /** The pass has committed and its message is not acked yet. */
  predicate AfterCommit(pc: ConsumerPc) {
    pc.DropBalance? || pc.DropTransaction? || pc.ToAck?
  }

  // ---- Working alone -------------------------------------------------------

  /** The transaction a connected consumer works on is in no other consumer's hands and not acked. */
  lemma WorkedOnAlone(s: State, c: nat)
    requires WorkInv(s) && c < |s.consumers| && s.consumers[c].up && InProgress(s.consumers[c].pc).Some?
    ensures
      var t := InProgress(s.consumers[c].pc).value.txn;
      && t !in s.hist.acked
      && forall d :: 0 <= d < |s.consumers| && d != c && s.consumers[d].up && InProgress(s.consumers[d].pc).Some? ==>
           InProgress(s.consumers[d].pc).value.txn != t
  {
    var t := InProgress(s.consumers[c].pc).value.txn;
    assert Aligned(s.consumers[c]);
    assert At(s, Unacked(c, 0), t);
    assert At(s, IsAcked, t) <==> t in s.hist.acked;
    forall d | 0 <= d < |s.consumers| && d != c && s.consumers[d].up && InProgress(s.consumers[d].pc).Some?
      ensures InProgress(s.consumers[d].pc).value.txn != t
    {
      assert Aligned(s.consumers[d]);
      assert At(s, Unacked(d, 0), InProgress(s.consumers[d].pc).value.txn);
    }
  }

  /** A connected, idle consumer's next message is not being worked on, nor acked. */
  lemma NextAlone(s: State, c: nat)
    requires WorkInv(s) && c < |s.consumers| && s.consumers[c].up
    requires s.consumers[c].pc.Idle? && s.consumers[c].inbox != []
    ensures
      var t := s.consumers[c].inbox[0].txn;
      && t !in s.hist.acked
      && forall d :: 0 <= d < |s.consumers| && s.consumers[d].up && InProgress(s.consumers[d].pc).Some? ==>
           InProgress(s.consumers[d].pc).value.txn != t
  {
    var t := s.consumers[c].inbox[0].txn;
    assert At(s, Unacked(c, 0), t);
    assert At(s, IsAcked, t) <==> t in s.hist.acked;
    forall d | 0 <= d < |s.consumers| && s.consumers[d].up && InProgress(s.consumers[d].pc).Some?
      ensures InProgress(s.consumers[d].pc).value.txn != t
    {
      assert Aligned(s.consumers[d]);
      assert At(s, Unacked(d, 0), InProgress(s.consumers[d].pc).value.txn);
    }
  }

  // ---- How often a message commits -----------------------------------------

  /** The broker's view: the message is acked, or its connected consumer is between Commit and Ack. */
  ghost predicate HasCommitted(s: State, t: TxnId) {
    t in s.hist.acked || exists c :: CommittedBy(s, c, t)
  }

  ghost predicate CommittedBy(s: State, c: nat, t: TxnId) {
    && c < |s.consumers| && s.consumers[c].up
    && AfterCommit(s.consumers[c].pc) && s.consumers[c].pc.m.txn == t
  }

  /** The step installs a pass of `t`. */
  predicate Completes(s: State, e: Event, t: TxnId) {
    && e.OnConsumer? && e.c < |s.consumers| && e.ce.DoCommit? && !e.ce.outcome.NotDone?
    && var pc := s.consumers[e.c].pc;
       pc.BalanceSet? && pc.m.txn == t && Validates(s.db, pc.m, pc.snap)
  }

  /** The steps after which a committed message is delivered again: a commit that is applied but reported as an
      error, a commit by a consumer whose channel is gone, and the loss of a consumer between Commit and Ack. */
  predicate Slip(s: State, e: Event, t: TxnId) {
    && e.OnConsumer? && e.c < |s.consumers|
    && var k := s.consumers[e.c];
       match e.ce
       case DoCommit(outcome) => Completes(s, e, t) && (outcome.Ambiguous? || !k.up)
       case Crash => k.up && AfterCommit(k.pc) && k.pc.m.txn == t
       case Disconnect => k.up && AfterCommit(k.pc) && k.pc.m.txn == t
       case _ => false
  }

  /** How many of the first `i` steps are slips of `t`. */
  ghost function Slips(tr: seq<State>, es: seq<Event>, i: nat, t: TxnId): nat
    requires |tr| == |es| + 1 && i <= |es|
  {
    if i == 0 then 0 else Slips(tr, es, i - 1, t) + if Slip(tr[i - 1], es[i - 1], t) then 1 else 0
  }

  function Owed(s: State, s': State, t: TxnId): int {
    Passes(s'.hist.log, t) - Passes(s.hist.log, t)
  }

  /** A step adds as many passes of `t` as slips and newly committed messages together. */
  ghost predicate Accounts(s: State, s': State, e: Event, t: TxnId) {
    Owed(s, s', t) ==
      (if Slip(s, e, t) then 1 else 0) + (if HasCommitted(s', t) then 1 else 0) - (if HasCommitted(s, t) then 1 else 0)
  }

  lemma SameCommitted(s: State, s': State, t: TxnId)
    requires s'.hist.acked == s.hist.acked && s'.consumers == s.consumers
    ensures HasCommitted(s', t) <==> HasCommitted(s, t)
  {
    if HasCommitted(s, t) && t !in s.hist.acked {
      var c :| CommittedBy(s, c, t);
      assert CommittedBy(s', c, t);
    }
    if HasCommitted(s', t) && t !in s.hist.acked {
      var c :| CommittedBy(s', c, t);
      assert CommittedBy(s, c, t);
    }
  }

  /** What a consumer's own step does to the answer, when no other consumer holds `t` after its commit. */
  lemma OnlyMine(s: State, s': State, c: nat, t: TxnId)
    requires c < |s.consumers| == |s'.consumers| && s'.consumers == s.consumers[c := s'.consumers[c]]
    ensures HasCommitted(s', t) <==>
              t in s'.hist.acked || CommittedBy(s', c, t) || exists d :: d != c && CommittedBy(s, d, t)
    ensures HasCommitted(s, t) <==>
              t in s.hist.acked || CommittedBy(s, c, t) || exists d :: d != c && CommittedBy(s, d, t)
  {
    if HasCommitted(s', t) && t !in s'.hist.acked {
      var d :| CommittedBy(s', d, t);
      assert d != c ==> CommittedBy(s, d, t);
    }
    if d :| d != c && CommittedBy(s, d, t) {
      assert CommittedBy(s', d, t);
    }
  }

  /** A message its connected consumer is still working on is not acked, nor committed by another. */
  lemma NoneElse(s: State, c: nat)
    requires WorkInv(s) && c < |s.consumers| && s.consumers[c].up && InProgress(s.consumers[c].pc).Some?
    ensures
      var t := InProgress(s.consumers[c].pc).value.txn;
      t !in s.hist.acked && !exists d :: d != c && CommittedBy(s, d, t)
  {
    WorkedOnAlone(s, c);
  }

  lemma CommitAccounts(s: State, c: nat, outcome: Outcome, t: TxnId)
    requires WorkInv(s) && c < |s.consumers| && s.consumers[c].pc.BalanceSet?
    ensures Accounts(s, ConsumerCommit(s, c, outcome), OnConsumer(c, DoCommit(outcome)), t)
  {
    hide InstallPass, Validates, Delta, ConsumerCommit, Passes, WorkInv, HasCommitted;
    var s' := ConsumerCommit(s, c, outcome);
    var k := s.consumers[c];
    assert s' == StepConsumer(s, c, DoCommit(outcome));
    ConsumerFrame(s, c, DoCommit(outcome));
    CommitFrame(s, c, outcome);
    OnlyMine(s, s', c, t);
    if k.up { NoneElse(s, c); }
    CommitPasses(s, s', c, t);
  }

  lemma CommitPasses(s: State, s': State, c: nat, t: TxnId)
    ensures Committed(s, s', c) ==> Owed(s, s', t) == if s.consumers[c].pc.m.txn == t then 1 else 0
    ensures s'.hist == s.hist ==> Owed(s, s', t) == 0
  {}

  lemma OtherAccounts(s: State, c: nat, e: ConsumerEvent, t: TxnId)
    requires WorkInv(s) && c < |s.consumers| && !e.DoCommit?
    ensures Accounts(s, StepConsumer(s, c, e), OnConsumer(c, e), t)
  {
    hide InstallPass, Validates, MarkProcessing, HasCommitted;
    var s' := StepConsumer(s, c, e);
    var k := s.consumers[c];
    ConsumerStores(s, c, e);
    ConsumerFrame(s, c, e);
    assert Aligned(k);
    OnlyMine(s, s', c, t);
    if k.up && InProgress(k.pc).Some? { NoneElse(s, c); }
  }

  lemma SyncAccounts(s: State, v: nat, e: SyncEvent, t: TxnId)
    requires v < |s.syncs|
    ensures Accounts(s, StepSync(s, v, e), OnSync(v, e), t)
  {
    hide StepSync, HasCommitted;
    var s' := StepSync(s, v, e);
    SyncFrame(s, v, e);
    if s'.hist.log != s.hist.log { PassesSnoc(s.hist.log, s'.hist.log[|s.hist.log|], t); }
    SameCommitted(s, s', t);
  }

  lemma StepAccounts(s: State, e: Event, t: TxnId)
    requires WorkInv(s)
    ensures Accounts(s, Next(s, e), e, t)
  {
    hide StepHandler, StepConsumer, StepSync, StepReader, WorkInv, HasCommitted;
    var s' := Step(s, e);
    match e {
      case OnHandler(h, he) => if h < |s.handlers| { HandlerFrame(s, h, he); } SameCommitted(s, s', t);
      case OnConsumer(c, ce) =>
        if c < |s.consumers| {
          if ce.DoCommit? { CommitEventAccounts(s, c, ce.outcome, t); } else { OtherAccounts(s, c, ce, t); }
        }
      case OnSync(v, ve) => if v < |s.syncs| { SyncAccounts(s, v, ve, t); }
      case OnReader(r, re) => if r < |s.readers| { ReaderFrame(s, r, re); } SameCommitted(s, s', t);
      case _ => SameCommitted(s, s', t);
    }
    SameCommitted(s', Next(s, e), t);
  }

  lemma CommitEventAccounts(s: State, c: nat, outcome: Outcome, t: TxnId)
    requires WorkInv(s) && c < |s.consumers|
    ensures Accounts(s, StepConsumer(s, c, DoCommit(outcome)), OnConsumer(c, DoCommit(outcome)), t)
  {
    hide ConsumerCommit, HasCommitted, WorkInv;
    if s.consumers[c].pc.BalanceSet? { CommitAccounts(s, c, outcome, t); }
  }

  /** In every reachable state of every run, a message's passes number its slips, plus one once it has committed for
      the broker.  `processTransaction` never looks at the row's status, so nothing else decides it. */
  lemma {:induction false} PassesCounted(tr: seq<State>, es: seq<Event>, i: nat, t: TxnId)
    requires Behavior(tr, es) && i <= |es|
    ensures Passes(tr[i].hist.log, t) == Slips(tr, es, i, t) + if HasCommitted(tr[i], t) then 1 else 0
    decreases i
  {
    hide Next, Slip;
    if i > 0 {
      PassesCounted(tr, es, i - 1, t);
      WorkHolds(tr, es, i - 1);
      StepAccounts(tr[i - 1], es[i - 1], t);
      assert tr[i - 1 + 1] == Next(tr[i - 1], es[i - 1]);
    }
  }

  /** However often its passes fail, are rolled back or requeued, a message that never slips commits at most once, and
      a pass about to be requeued has changed no balance. */
  lemma RetriesAreSafe(tr: seq<State>, es: seq<Event>, i: nat, t: TxnId)
    requires Behavior(tr, es) && i <= |es| && Slips(tr, es, i, t) == 0
    ensures Passes(tr[i].hist.log, t) <= 1
    ensures forall c ::
      (0 <= c < |tr[i].consumers| && tr[i].consumers[c].up && tr[i].consumers[c].pc.ToNack?
       && tr[i].consumers[c].pc.m.txn == t) ==> Passes(tr[i].hist.log, t) == 0
  {
    PassesCounted(tr, es, i, t);
    WorkHolds(tr, es, i);
    forall c | 0 <= c < |tr[i].consumers| && tr[i].consumers[c].up && tr[i].consumers[c].pc.ToNack?
               && tr[i].consumers[c].pc.m.txn == t
      ensures Passes(tr[i].hist.log, t) == 0
    {
      WorkedOnAlone(tr[i], c);
    }
  }

  /** Exactly once, exactly when: an acked message has committed once if and only if no step of the run slipped it. */
  lemma AckedExactlyOnceIff(tr: seq<State>, es: seq<Event>, i: nat, t: TxnId)
    requires Behavior(tr, es) && i <= |es| && t in tr[i].hist.acked
    ensures Passes(tr[i].hist.log, t) == 1 + Slips(tr, es, i, t)
    ensures Passes(tr[i].hist.log, t) == 1 <==> forall j :: 0 <= j < i ==> !Slip(tr[j], es[j], t)
  {
    PassesCounted(tr, es, i, t);
    NoSlips(tr, es, i, t);
  }

  lemma {:induction false} NoSlips(tr: seq<State>, es: seq<Event>, i: nat, t: TxnId)
    requires |tr| == |es| + 1 && i <= |es|
    ensures Slips(tr, es, i, t) == 0 <==> forall j :: 0 <= j < i ==> !Slip(tr[j], es[j], t)
    decreases i
  {
    hide Slip;
    if i > 0 { NoSlips(tr, es, i - 1, t); }
  }

  // ---- What an ack promises ------------------------------------------------

  /** A consumer whose channel is gone claims `t`, from the copies it still holds. */
  predicate StrayClaim(s: State, e: Event, t: TxnId) {
    && e.OnConsumer? && e.c < |s.consumers| && e.ce.Claim? && !e.ce.outcome.NotDone?
    && var k := s.consumers[e.c];
       !k.up && k.pc.Idle? && k.inbox != [] && k.inbox[0].txn == t
  }

  /** Within the first `i` steps a stray consumer has claimed `t`, and no pass of `t` has been installed since. */
  ghost predicate Astray(tr: seq<State>, es: seq<Event>, i: nat, t: TxnId)
    requires |tr| == |es| + 1 && i <= |es|
    decreases i
  {
    i > 0 && !Completes(tr[i - 1], es[i - 1], t) && (StrayClaim(tr[i - 1], es[i - 1], t) || Astray(tr, es, i - 1, t))
  }

  ghost predicate CompletedUnless(s: State, t: TxnId, astray: bool) {
    HasCommitted(s, t) ==> t in s.db.txns && (s.db.txns[t].status.Completed? <==> !astray)
  }

  predicate AstrayNext(s: State, e: Event, t: TxnId, astray: bool) {
    !Completes(s, e, t) && (StrayClaim(s, e, t) || astray)
  }

  lemma UnchangedRow(s: State, s': State, t: TxnId, astray: bool)
    requires CompletedUnless(s, t, astray) && (HasCommitted(s', t) ==> HasCommitted(s, t))
    requires t in s.db.txns ==> t in s'.db.txns && s'.db.txns[t] == s.db.txns[t]
    ensures CompletedUnless(s', t, astray)
  {}

  lemma ClaimStatus(s: State, c: nat, outcome: Outcome, t: TxnId, astray: bool)
    requires WorkInv(s) && c < |s.consumers| && CompletedUnless(s, t, astray)
    ensures CompletedUnless(StepConsumer(s, c, Claim(outcome)), t,
              AstrayNext(s, OnConsumer(c, Claim(outcome)), t, astray))
  {
    hide WorkInv, HasCommitted, ConsumerCommit, CacheDelete;
    var s', k := StepConsumer(s, c, Claim(outcome)), s.consumers[c];
    OnlyMine(s, s', c, t);
    if k.up && k.pc.Idle? && k.inbox != [] {
      NextAlone(s, c);
    }
  }

  lemma CommitStatus(s: State, c: nat, outcome: Outcome, t: TxnId, astray: bool)
    requires WorkInv(s) && c < |s.consumers| && CompletedUnless(s, t, astray)
    requires ConsumerRefers(s.db, s.consumers[c])
    ensures CompletedUnless(StepConsumer(s, c, DoCommit(outcome)), t,
              AstrayNext(s, OnConsumer(c, DoCommit(outcome)), t, astray))
  {
    hide WorkInv, HasCommitted, ConsumerCommit, Validates, Delta, Listed;
    var s', k := StepConsumer(s, c, DoCommit(outcome)), s.consumers[c];
    if k.pc.BalanceSet? {
      ConsumerFrame(s, c, DoCommit(outcome));
      CommitFrame(s, c, outcome);
      OnlyMine(s, s', c, t);
    }
  }

  lemma OtherStatus(s: State, c: nat, e: ConsumerEvent, t: TxnId, astray: bool)
    requires c < |s.consumers| && !e.Claim? && !e.DoCommit? && CompletedUnless(s, t, astray)
    ensures CompletedUnless(StepConsumer(s, c, e), t, astray)
  {
    hide HasCommitted, MarkProcessing, InstallPass, Validates, Delta, CacheDelete, TakeSnapshot;
    var s' := StepConsumer(s, c, e);
    ConsumerFrame(s, c, e);
    ConsumerStores(s, c, e);
    OnlyMine(s, s', c, t);
  }

  lemma ConsumerStatus(s: State, c: nat, e: ConsumerEvent, t: TxnId, astray: bool)
    requires WorkInv(s) && QueueRefers(s) && c < |s.consumers| && CompletedUnless(s, t, astray)
    ensures CompletedUnless(StepConsumer(s, c, e), t, AstrayNext(s, OnConsumer(c, e), t, astray))
  {
    hide StepConsumer, WorkInv, CompletedUnless, ConsumerRefers;
    match e
    case Claim(outcome) => ClaimStatus(s, c, outcome, t, astray);
    case DoCommit(outcome) => assert ConsumerRefers(s.db, s.consumers[c]); CommitStatus(s, c, outcome, t, astray);
    case _ => OtherStatus(s, c, e, t, astray);
  }

  lemma HandlerLeavesRows(s: State, h: nat, e: HandlerEvent, t: TxnId)
    requires h < |s.handlers| && t in s.db.txns
    ensures t in StepHandler(s, h, e).db.txns && StepHandler(s, h, e).db.txns[t] == s.db.txns[t]
  {}

  lemma StatusKept(s: State, e: Event, t: TxnId, astray: bool)
    requires WorkInv(s) && QueueRefers(s) && CompletedUnless(s, t, astray)
    ensures CompletedUnless(Next(s, e), t, AstrayNext(s, e, t, astray))
  {
    hide StepHandler, StepConsumer, StepSync, StepReader, WorkInv, QueueRefers, HasCommitted, CompletedUnless;
    var s' := Step(s, e);
    match e {
      case OnHandler(h, he) =>
        if h < |s.handlers| {
          HandlerFrame(s, h, he);
          if t in s.db.txns { HandlerLeavesRows(s, h, he, t); }
        }
        SameCommitted(s, s', t);
        UnchangedRow(s, s', t, astray);
      case OnConsumer(c, ce) => if c < |s.consumers| { ConsumerStatus(s, c, ce, t, astray); }
      case OnSync(v, ve) =>
        if v < |s.syncs| { SyncFrame(s, v, ve); }
        SameCommitted(s, s', t);
        UnchangedRow(s, s', t, astray);
      case OnReader(r, re) =>
        if r < |s.readers| { ReaderFrame(s, r, re); }
        SameCommitted(s, s', t);
        UnchangedRow(s, s', t, astray);
      case _ =>
        SameCommitted(s, s', t);
        UnchangedRow(s, s', t, astray);
    }
    SameCommitted(s', Next(s, e), t);
    UnchangedRow(s', Next(s, e), t, AstrayNext(s, e, t, astray));
  }

  lemma {:induction false} StatusHolds(tr: seq<State>, es: seq<Event>, i: nat, t: TxnId)
    requires Behavior(tr, es) && i <= |es|
    ensures CompletedUnless(tr[i], t, Astray(tr, es, i, t))
    decreases i
  {
    hide Next, CompletedUnless, Completes, StrayClaim, Initial;
    if i > 0 {
      StatusHolds(tr, es, i - 1, t);
      WorkHolds(tr, es, i - 1);
      ReferencesHold(tr, es, i - 1);
      StatusKept(tr[i - 1], es[i - 1], t, Astray(tr, es, i - 1, t));
      assert tr[i - 1 + 1] == Next(tr[i - 1], es[i - 1]);
    } else {
      NothingCommitted(tr[0], t);
    }
  }

  lemma NothingCommitted(s: State, t: TxnId)
    requires Initial(s)
    ensures CompletedUnless(s, t, false)
  {}

  lemma {:induction false} AcksGrow(tr: seq<State>, es: seq<Event>, i: nat, j: nat)
    requires Execution(tr, es) && i <= j <= |es|
    ensures tr[i].hist.acked <= tr[j].hist.acked
    decreases j
  {
    hide Next;
    if i < j {
      AcksGrow(tr, es, i, j - 1);
      HistoryGrows(tr[j - 1], es[j - 1]);
    }
  }

  /** Once a message is acked, in every later state at least one of its passes has committed, and its row is `completed`
      if and only if no consumer that had lost its channel has claimed it since its last commit. */
  lemma AckedIsCompletedIff(tr: seq<State>, es: seq<Event>, i: nat, j: nat, t: TxnId)
    requires Behavior(tr, es) && i <= j <= |es| && t in tr[i].hist.acked
    ensures t in tr[j].db.txns && Passes(tr[j].hist.log, t) >= 1
    ensures tr[j].db.txns[t].status.Completed? <==> !Astray(tr, es, j, t)
  {
    AcksGrow(tr, es, i, j);
    StatusHolds(tr, es, j, t);
    PassesCounted(tr, es, j, t);
  }

  /** Crash-stop: a consumer that loses its channel dies with it. */
  predicate CrashStop(s: State, e: Event) {
    !(e.OnConsumer? && e.ce.Disconnect?)
  }

  ghost predicate AllUp(s: State) {
    forall c :: 0 <= c < |s.consumers| ==> s.consumers[c].up
  }

  lemma StaysUp(s: State, c: nat, e: ConsumerEvent)
    requires c < |s.consumers| && s.consumers[c].up && !e.Disconnect?
    ensures c < |StepConsumer(s, c, e).consumers| && StepConsumer(s, c, e).consumers[c].up
  {
    hide MarkProcessing, InstallPass, Validates, Delta, CacheDelete, TakeSnapshot;
  }

  lemma UpKept(s: State, e: Event)
    requires AllUp(s) && CrashStop(s, e)
    ensures AllUp(Next(s, e))
  {
    hide StepHandler, StepConsumer, StepSync, StepReader;
    match e
    case OnHandler(h, he) => if h < |s.handlers| { HandlerFrame(s, h, he); }
    case OnConsumer(c, ce) => if c < |s.consumers| { ConsumerFrame(s, c, ce); StaysUp(s, c, ce); }
    case OnSync(v, ve) => if v < |s.syncs| { SyncFrame(s, v, ve); }
    case OnReader(r, re) => if r < |s.readers| { ReaderFrame(s, r, re); }
    case _ =>
  }

  lemma {:induction false} NoneAstray(tr: seq<State>, es: seq<Event>, i: nat)
    requires Behavior(tr, es) && i <= |es| && Always(tr, es, CrashStop)
    ensures AllUp(tr[i])
    ensures forall t :: !Astray(tr, es, i, t)
    decreases i
  {
    hide Next, Completes;
    if i > 0 {
      NoneAstray(tr, es, i - 1);
      UpKept(tr[i - 1], es[i - 1]);
      assert tr[i - 1 + 1] == Next(tr[i - 1], es[i - 1]);
    }
  }

  /** With crash-stop consumers, once a message is acked its row is `completed` for good. */
  lemma AckedImpliesCompletedForever(tr: seq<State>, es: seq<Event>, i: nat, j: nat, t: TxnId)
    requires Behavior(tr, es) && i <= j <= |es| && Always(tr, es, CrashStop)
    requires t in tr[i].hist.acked
    ensures t in tr[j].db.txns && tr[j].db.txns[t].status.Completed? && Passes(tr[j].hist.log, t) >= 1
  {
    AckedIsCompletedIff(tr, es, i, j, t);
    NoneAstray(tr, es, j);
  }
}

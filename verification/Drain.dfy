/** Once publishing stops, finitely many failures leave finitely much work, and none is left undone. */
module Drain {
  import opened Domain
  import opened Stores
  import opened Protocol
  import opened Frames
  import opened Traces
  import opened Ledger
  import opened References
  import opened Delivery
  import opened Lifecycle
  import opened ExactlyOnce

  // ---- A measure -----------------------------------------------------------

  /** What it can cost when a snapshot is overtaken: the pass fails to validate and its message is delivered again. */
  const OVERTAKEN: nat := 7

  /** The steps a pass has left, among `n` consumers.  Until it commits it also carries what its commit may cost the
      others, and so does the claim of a consumer without a channel. */
  function Remaining(pc: ConsumerPc, up: bool, n: nat): nat {
    match pc
    case Idle => 0
    case Claimed(_) => OVERTAKEN * n + 8
    case Begun(_, _) => OVERTAKEN * n + 7
    case StatusSet(_, _) => OVERTAKEN * n + 6
    case BalanceSet(_, _) => OVERTAKEN * n + 5
    case DropBalance(_, _) => 3
    case DropTransaction(_) => 2
    case ToAck(_) => 1
    case ToNack(_) => if up then OVERTAKEN * n + 11 else 1
  }

  /** A message held by a consumer that has not claimed it yet. */
  function HeldLoad(up: bool, n: nat): nat {
    if up then OVERTAKEN * n + 9 else 2 * OVERTAKEN * n + 9
  }

  function ReadyLoad(n: nat): nat {
    OVERTAKEN * n + 10
  }

  /** The snapshot of a connected consumer that will fail to validate. */
  predicate Overtaken(db: Db, k: Consumer) {
    k.up && (k.pc.Begun? || k.pc.StatusSet? || k.pc.BalanceSet?) && !Validates(db, k.pc.m, k.pc.snap)
  }

  function Times(x: nat, y: nat): nat {
    x * y
  }

  function Load(db: Db, k: Consumer, n: nat): nat {
    if InProgress(k.pc).Some? && k.inbox != []
    then
      Times(|k.inbox| - 1, HeldLoad(k.up, n)) + Remaining(k.pc, k.up, n) + if Overtaken(db, k) then OVERTAKEN else 0
    else Times(|k.inbox|, HeldLoad(k.up, n))
  }

  function Loads(db: Db, ks: seq<Consumer>, n: nat): nat
    decreases |ks|
  {
    if ks == [] then 0 else Loads(db, ks[..|ks| - 1], n) + Load(db, ks[|ks| - 1], n)
  }

  /** Messages the broker counts as unacked. */
  function Unacks(ks: seq<Consumer>): nat
    decreases |ks|
  {
    if ks == [] then 0 else Unacks(ks[..|ks| - 1]) + |Unanswered(ks[|ks| - 1])|
  }

  function Work(s: State): nat {
    ReadyLoad(|s.consumers|) * |s.ready| + Loads(s.db, s.consumers, |s.consumers|)
  }

  /** At most `m` messages are at the broker, and at most `m` are held by any one consumer. */
  ghost predicate Fits(s: State, m: nat) {
    && |s.ready| + Unacks(s.consumers) <= m
    && forall k :: k in s.consumers ==> |k.inbox| <= m && Aligned(k)
  }

  /** No arrangement of so many messages among `n` consumers is more work than this. */
  function Limit(m: nat, n: nat): nat {
    (n + 1) * (m * (2 * OVERTAKEN * n + 14))
  }

  lemma TimesOneMore(x: nat, y: nat)
    ensures (x + 1) * y == x * y + y
  {}

  lemma TimesLess(x: nat, y: nat, z: nat)
    requires x <= y
    ensures x * z <= y * z && z * x <= z * y
  {}

  lemma {:induction false} UnacksUpdate(ks: seq<Consumer>, c: nat, k: Consumer)
    requires c < |ks|
    ensures Unacks(ks[c := k]) == Unacks(ks) - |Unanswered(ks[c])| + |Unanswered(k)|
    ensures |Unanswered(ks[c])| <= Unacks(ks)
    decreases |ks|
  {
    hide Unanswered;
    var n := |ks| - 1;
    if c == n {
      assert ks[c := k][..n] == ks[..n];
    } else {
      assert ks[c := k][..n] == ks[..n][c := k];
      UnacksUpdate(ks[..n], c, k);
    }
  }

  /** Consumer `c` changes, and the database with it; each other load grows by `slack` at most. */
  lemma {:induction false} LoadsUpdate(db: Db, db': Db, ks: seq<Consumer>, c: nat, k: Consumer, n: nat, slack: nat)
    requires c < |ks|
    requires forall d :: 0 <= d < |ks| && d != c ==> Load(db', ks[d], n) <= Load(db, ks[d], n) + slack
    ensures Loads(db', ks[c := k], n) <= Loads(db, ks, n) - Load(db, ks[c], n) + Load(db', k, n) + |ks| * slack
    decreases |ks|
  {
    hide Load;
    var m := |ks| - 1;
    TimesOneMore(m, slack);
    if c == m {
      assert ks[c := k][..m] == ks[..m];
      LoadsGrow(db, db', ks[..m], n, slack);
    } else {
      assert ks[c := k][..m] == ks[..m][c := k];
      LoadsUpdate(db, db', ks[..m], c, k, n, slack);
    }
  }

  lemma {:induction false} LoadsGrow(db: Db, db': Db, ks: seq<Consumer>, n: nat, slack: nat)
    requires forall d :: 0 <= d < |ks| ==> Load(db', ks[d], n) <= Load(db, ks[d], n) + slack
    ensures Loads(db', ks, n) <= Loads(db, ks, n) + |ks| * slack
    decreases |ks|
  {
    hide Load;
    if ks != [] {
      LoadsGrow(db, db', ks[..|ks| - 1], n, slack);
      TimesOneMore(|ks| - 1, slack);
    }
  }

  lemma {:induction false} LoadsSame(db: Db, db': Db, ks: seq<Consumer>, n: nat)
    requires forall d :: 0 <= d < |ks| ==> Load(db', ks[d], n) == Load(db, ks[d], n)
    ensures Loads(db', ks, n) == Loads(db, ks, n)
    decreases |ks|
  {
    hide Load;
    if ks != [] { LoadsSame(db, db', ks[..|ks| - 1], n); }
  }

  lemma LoadBounded(db: Db, k: Consumer, m: nat, n: nat)
    requires |k.inbox| <= m && Aligned(k)
    ensures Load(db, k, n) <= m * (2 * OVERTAKEN * n + 14)
  {
    hide Validates;
    var each := 2 * OVERTAKEN * n + 14;
    TimesLess(|k.inbox|, m, each);
    TimesLess(HeldLoad(k.up, n), each, |k.inbox|);
    if InProgress(k.pc).Some? {
      TimesOneMore(|k.inbox| - 1, each);
      TimesLess(HeldLoad(k.up, n), each, |k.inbox| - 1);
    }
  }

  lemma {:induction false} LoadsBounded(db: Db, ks: seq<Consumer>, m: nat, n: nat)
    requires forall k :: k in ks ==> |k.inbox| <= m && Aligned(k)
    ensures Loads(db, ks, n) <= |ks| * (m * (2 * OVERTAKEN * n + 14))
    decreases |ks|
  {
    hide Load, Aligned;
    if ks != [] {
      var front, last := ks[..|ks| - 1], ks[|ks| - 1];
      assert last in ks;
      forall k | k in front ensures k in ks {}
      LoadsBounded(db, front, m, n);
      LoadBounded(db, last, m, n);
      TimesOneMore(|front|, m * (2 * OVERTAKEN * n + 14));
    }
  }

  lemma WorkBounded(s: State, m: nat)
    requires Fits(s, m)
    ensures Work(s) <= Limit(m, |s.consumers|)
  {
    hide Loads, Load;
    var n := |s.consumers|;
    var each := 2 * OVERTAKEN * n + 14;
    LoadsBounded(s.db, s.consumers, m, n);
    TimesLess(ReadyLoad(n), each, |s.ready|);
    TimesLess(|s.ready|, m, each);
    TimesOneMore(n, m * each);
  }

  // ---- What a step does to it ----------------------------------------------

  /** The step changed the queue or a consumer. */
  predicate Effective(s: State, e: Event) {
    Next(s, e).ready != s.ready || Next(s, e).consumers != s.consumers
  }

  /** The call a consumer is about to make does not simply succeed. */
  predicate CallFails(k: Consumer, e: ConsumerEvent) {
    match e
    case Claim(outcome) => k.pc.Idle? && k.inbox != [] && !outcome.Done?
    case Begin(ok) => k.pc.Claimed? && !ok
    case SetStatus(ok) => k.pc.Begun? && !ok
    case SetBalance(ok) => k.pc.StatusSet? && !ok && Listed(k.pc.m.kind)
    case DoCommit(outcome) => k.pc.BalanceSet? && !outcome.Done?
    case _ => false
  }

  /** What is counted: a consumer's call fails, a consumer or its channel is lost, or a synchronous request commits.
      A commit refused because another has overtaken it is not counted. */
  predicate Failing(s: State, e: Event) {
    || (e.OnConsumer? && e.c < |s.consumers| && (e.ce.Crash? || e.ce.Disconnect? || CallFails(s.consumers[e.c], e.ce)))
    || (e.OnSync? && Step(s, e).db != s.db)
  }

  predicate NotPublishing(s: State, e: Event) {
    !(e.OnHandler? && e.he.DoPublish?)
  }

  /** What the step may cost the other consumers. */
  function Cost(s: State, c: nat, e: ConsumerEvent): nat
    requires c < |s.consumers|
  {
    if StepConsumer(s, c, e).db == s.db || (e.Claim? && s.consumers[c].up) then 0 else OVERTAKEN
  }

  /** The queue's and the consumer's own share of the work shrink, and pay for what the step costs the others. */
  ghost predicate Pays(s: State, s': State, c: nat, cost: nat) {
    && c < |s.consumers| == |s'.consumers|
    && var n := |s.consumers|;
       ReadyLoad(n) * |s'.ready| + Load(s'.db, s'.consumers[c], n) + n * cost
         < ReadyLoad(n) * |s.ready| + Load(s.db, s.consumers[c], n)
  }

  lemma DeliverPays(s: State, c: nat)
    requires c < |s.consumers| && Aligned(s.consumers[c]) && CanDeliver(s, c)
    ensures Pays(s, ConsumerDeliver(s, c), c, 0)
  {
    hide Validates;
    var n, k := |s.consumers|, s.consumers[c];
    TimesOneMore(|s.ready| - 1, ReadyLoad(n));
    TimesOneMore(|k.inbox|, HeldLoad(true, n));
    if InProgress(k.pc).Some? { TimesOneMore(|k.inbox| - 1, HeldLoad(true, n)); }
  }

  lemma ClaimPays(s: State, c: nat)
    requires c < |s.consumers| && s.consumers[c].pc.Idle? && s.consumers[c].inbox != []
    ensures Pays(s, ConsumerClaim(s, c, Done), c, if s.consumers[c].up then 0 else OVERTAKEN)
  {
    hide MarkProcessing, Validates;
    TimesOneMore(|s.consumers[c].inbox| - 1, HeldLoad(s.consumers[c].up, |s.consumers|));
  }

  /** The transaction's statements, and the two deletes. */
  lemma ProceedPays(s: State, c: nat, e: ConsumerEvent)
    requires c < |s.consumers| && Aligned(s.consumers[c]) && !CallFails(s.consumers[c], e)
    requires
      var pc := s.consumers[c].pc;
      || (e.Begin? && pc.Claimed?) || (e.SetStatus? && pc.Begun?) || (e.SetBalance? && pc.StatusSet?)
      || (e.DeleteBalance? && pc.DropBalance?) || (e.DeleteTransaction? && pc.DropTransaction?)
    ensures Pays(s, StepConsumer(s, c, e), c, 0)
  {
    hide Delta, CacheDelete;
  }

  lemma CommitPays(s: State, c: nat)
    requires c < |s.consumers| && s.consumers[c].pc.BalanceSet? && Aligned(s.consumers[c])
    ensures
      var s' := ConsumerCommit(s, c, Done);
      Pays(s, s', c, if s'.db == s.db then 0 else OVERTAKEN)
  {
    hide InstallPass, Validates, Delta;
  }

  lemma AnswerPays(s: State, c: nat)
    requires c < |s.consumers| && Aligned(s.consumers[c])
    ensures s.consumers[c].pc.ToAck? ==> Pays(s, ConsumerAck(s, c), c, 0)
    ensures s.consumers[c].pc.ToNack? ==> Pays(s, ConsumerNack(s, c), c, 0)
  {
    hide Validates;
    TimesOneMore(|s.ready|, ReadyLoad(|s.consumers|));
  }

  lemma NoticePays(s: State, c: nat)
    requires c < |s.consumers| && Aligned(s.consumers[c])
    ensures ConsumerNotice(s, c) == s || Pays(s, ConsumerNotice(s, c), c, 0)
  {
    var n, k := |s.consumers|, s.consumers[c];
    if ConsumerNotice(s, c).consumers[c] == k {
      assert s.consumers[c := k] == s.consumers;
    } else {
      TimesLess(1, if k.pc.Idle? then |k.inbox| else |k.inbox| - 1, HeldLoad(false, n));
    }
  }

  lemma OwnLoad(s: State, c: nat, e: ConsumerEvent)
    requires c < |s.consumers| && Aligned(s.consumers[c]) && !Failing(s, OnConsumer(c, e))
    ensures
      var s' := StepConsumer(s, c, e);
      s' == s || Pays(s, s', c, Cost(s, c, e))
  {
    hide ConsumerDeliver, ConsumerClaim, ConsumerBegin, ConsumerSetStatus, ConsumerSetBalance, ConsumerCommit,
         ConsumerDeleteBalance, ConsumerDeleteTransaction, ConsumerAck, ConsumerNack, ConsumerNotice, Pays;
    ConsumerStores(s, c, e);
    var k := s.consumers[c];
    match e
    case Deliver => if CanDeliver(s, c) { DeliverPays(s, c); } else { DeliverNothing(s, c); }
    case Claim(outcome) =>
      if k.pc.Idle? {
        if k.inbox != [] { ClaimPays(s, c); ClaimCost(s, c); } else { ClaimNothing(s, c, outcome); }
      }
    case Begin(_) => if k.pc.Claimed? { ProceedPays(s, c, e); }
    case SetStatus(_) => if k.pc.Begun? { ProceedPays(s, c, e); }
    case SetBalance(_) => if k.pc.StatusSet? { ProceedPays(s, c, e); }
    case DoCommit(_) => if k.pc.BalanceSet? { CommitPays(s, c); }
    case DeleteBalance(_) => if k.pc.DropBalance? { ProceedPays(s, c, e); }
    case DeleteTransaction(_) => if k.pc.DropTransaction? { ProceedPays(s, c, e); }
    case Ack => AnswerPays(s, c);
    case Nack => AnswerPays(s, c);
    case Notice => NoticePays(s, c);
  }

  lemma DeliverNothing(s: State, c: nat)
    requires c < |s.consumers| && !CanDeliver(s, c)
    ensures ConsumerDeliver(s, c) == s
  {}

  lemma ClaimNothing(s: State, c: nat, outcome: Outcome)
    requires c < |s.consumers| && s.consumers[c].pc.Idle? && s.consumers[c].inbox == []
    ensures ConsumerClaim(s, c, outcome) == s
  {}

  /** Paying for more is paying for less. */
  lemma ClaimCost(s: State, c: nat)
    requires c < |s.consumers| && s.consumers[c].pc.Idle?
    requires Pays(s, ConsumerClaim(s, c, Done), c, if s.consumers[c].up then 0 else OVERTAKEN)
    ensures Pays(s, ConsumerClaim(s, c, Done), c, Cost(s, c, Claim(Done)))
  {
    hide ConsumerClaim, Load;
  }

  /** A claim by a connected consumer overtakes no other connected one: none works on the same transaction. */
  lemma ClaimOvertakesNone(s: State, c: nat, outcome: Outcome, d: nat)
    requires WorkInv(s) && c < |s.consumers| && s.consumers[c].up && d < |s.consumers| && d != c
    requires ConsumerRefers(s.db, s.consumers[d])
    ensures Overtaken(StepConsumer(s, c, Claim(outcome)).db, s.consumers[d]) ==> Overtaken(s.db, s.consumers[d])
  {
    hide WorkInv, ConsumerCommit, InstallPass, ConsumerCrash, ConsumerDisconnect, ConsumerNotice;
    if s.consumers[c].pc.Idle? && s.consumers[c].inbox != [] {
      NextAlone(s, c);
    }
  }

  lemma OthersLoad(s: State, c: nat, e: ConsumerEvent, d: nat)
    requires WorkInv(s) && QueueRefers(s) && c < |s.consumers| && d < |s.consumers| && d != c
    ensures Load(StepConsumer(s, c, e).db, s.consumers[d], |s.consumers|)
         <= Load(s.db, s.consumers[d], |s.consumers|) + Cost(s, c, e)
  {
    hide WorkInv, StepConsumer, Overtaken, ConsumerRefers;
    assert ConsumerRefers(s.db, s.consumers[d]);
    if e.Claim? && s.consumers[c].up { ClaimOvertakesNone(s, c, e.outcome, d); }
  }

  /** No step makes the broker hold more, and a consumer without a channel is handed nothing. */
  lemma OwnMessages(s: State, c: nat, e: ConsumerEvent)
    requires c < |s.consumers| && Aligned(s.consumers[c])
    ensures
      var s', k := StepConsumer(s, c, e), s.consumers[c];
      var k' := s'.consumers[c];
      && |s'.ready| + |Unanswered(k')| <= |s.ready| + |Unanswered(k)|
      && |k'.inbox| <= |k.inbox| + if k.up then |s.ready| else 0
  {
    hide Validates, InstallPass, MarkProcessing, Delta, CacheDelete, TakeSnapshot;
  }

  lemma ConsumerFits(s: State, c: nat, e: ConsumerEvent, m: nat)
    requires c < |s.consumers| && Fits(s, m)
    ensures Fits(StepConsumer(s, c, e), m)
  {
    hide StepConsumer, Unacks, Aligned;
    var s' := StepConsumer(s, c, e);
    ConsumerFrame(s, c, e);
    OwnMessages(s, c, e);
    StaysAligned(s, c, e);
    UnacksUpdate(s.consumers, c, s'.consumers[c]);
    forall x | x in s'.consumers ensures x in s.consumers || x == s'.consumers[c] {}
  }

  lemma ConsumerMeasure(s: State, c: nat, e: ConsumerEvent)
    requires WorkInv(s) && QueueRefers(s) && c < |s.consumers| && !Failing(s, OnConsumer(c, e))
    ensures StepConsumer(s, c, e) == s || Work(StepConsumer(s, c, e)) < Work(s)
  {
    hide StepConsumer, Loads, Load, Failing, OnePlace, SomePlace, Aligned, QueueRefers, Cost;
    var s', cost := StepConsumer(s, c, e), Cost(s, c, e);
    ConsumerFrame(s, c, e);
    assert Aligned(s.consumers[c]);
    OwnLoad(s, c, e);
    forall d | 0 <= d < |s.consumers| && d != c
      ensures Load(s'.db, s.consumers[d], |s.consumers|) <= Load(s.db, s.consumers[d], |s.consumers|) + cost
    {
      OthersLoad(s, c, e, d);
    }
    LoadsUpdate(s.db, s'.db, s.consumers, c, s'.consumers[c], |s.consumers|, cost);
  }

  /** Inserting a row overtakes no snapshot. */
  lemma HandlerLoad(s: State, h: nat, e: HandlerEvent, d: nat)
    requires h < |s.handlers| && d < |s.consumers| && SnapshotsHeld(s) && QueueRefers(s)
    ensures Load(StepHandler(s, h, e).db, s.consumers[d], |s.consumers|) == Load(s.db, s.consumers[d], |s.consumers|)
  {
    hide HandlerInsert, Refers;
    HandlerFrame(s, h, e);
    assert ConsumerRefers(s.db, s.consumers[d]) && ConsumerSnapshot(s.db, s.consumers[d].pc);
    if e.DoInsert? && s.handlers[h].pc.Insert? { InsertFrame(s, h, e.t, e.reference, e.outcome); }
  }

  lemma HandlerMeasure(s: State, h: nat, e: HandlerEvent)
    requires h < |s.handlers| && SnapshotsHeld(s) && QueueRefers(s) && !e.DoPublish?
    ensures Work(StepHandler(s, h, e)) == Work(s)
  {
    hide StepHandler, Loads, Load, SnapshotsHeld, QueueRefers;
    HandlerFrame(s, h, e);
    forall d | 0 <= d < |s.consumers|
      ensures Load(StepHandler(s, h, e).db, s.consumers[d], |s.consumers|) == Load(s.db, s.consumers[d], |s.consumers|)
    {
      HandlerLoad(s, h, e, d);
    }
    LoadsSame(s.db, StepHandler(s, h, e).db, s.consumers, |s.consumers|);
  }

  lemma StepFits(s: State, e: Event, m: nat)
    requires Fits(s, m) && NotPublishing(s, e)
    ensures Fits(Next(s, e), m) && |Next(s, e).consumers| == |s.consumers|
  {
    hide StepHandler, StepConsumer, StepSync, StepReader, Unacks, Aligned;
    match e
    case OnHandler(h, he) => if h < |s.handlers| { HandlerFrame(s, h, he); }
    case OnConsumer(c, ce) => if c < |s.consumers| { ConsumerFrame(s, c, ce); ConsumerFits(s, c, ce, m); }
    case OnSync(v, ve) => if v < |s.syncs| { SyncFrame(s, v, ve); }
    case OnReader(r, re) => if r < |s.readers| { ReaderFrame(s, r, re); }
    case _ =>
  }

  lemma StepMeasure(s: State, e: Event)
    requires WorkInv(s) && QueueRefers(s) && SnapshotsHeld(s) && NotPublishing(s, e) && !Failing(s, e)
    ensures Effective(s, e) ==> Work(Next(s, e)) < Work(s)
    ensures Work(Next(s, e)) <= Work(s)
  {
    hide StepHandler, StepConsumer, StepSync, StepReader, Loads, WorkInv, QueueRefers, SnapshotsHeld;
    match e
    case OnHandler(h, he) => if h < |s.handlers| { HandlerFrame(s, h, he); HandlerMeasure(s, h, he); }
    case OnConsumer(c, ce) => if c < |s.consumers| { ConsumerMeasure(s, c, ce); }
    case OnSync(v, ve) => if v < |s.syncs| { SyncFrame(s, v, ve); }
    case OnReader(r, re) => if r < |s.readers| { ReaderFrame(s, r, re); }
    case _ =>
  }

  // ---- Termination ---------------------------------------------------------

  /** How many of the steps `i..j` change the queue or a consumer. */
  ghost function Steps(tr: seq<State>, es: seq<Event>, i: nat, j: nat): nat
    requires |tr| == |es| + 1 && i <= j <= |es|
    decreases j - i
  {
    if i == j then 0 else (if Effective(tr[i], es[i]) then 1 else 0) + Steps(tr, es, i + 1, j)
  }

  ghost function Failures(tr: seq<State>, es: seq<Event>, i: nat, j: nat): nat
    requires |tr| == |es| + 1 && i <= j <= |es|
    decreases j - i
  {
    if i == j then 0 else (if Failing(tr[i], es[i]) then 1 else 0) + Failures(tr, es, i + 1, j)
  }

  lemma {:induction false} DrainsWithin(tr: seq<State>, es: seq<Event>, i: nat, j: nat, m: nat)
    requires Behavior(tr, es) && i <= j <= |es| && Fits(tr[i], m)
    requires forall k :: i <= k < j ==> NotPublishing(tr[k], es[k])
    ensures Steps(tr, es, i, j) <= Work(tr[i]) + Failures(tr, es, i, j) * (Limit(m, |tr[i].consumers|) + 1)
    decreases j - i
  {
    hide Next, Effective, Failing, Work, Limit, Fits, NotPublishing, Initial, WorkInv, QueueRefers, SnapshotsHeld;
    if i < j {
      assert NotPublishing(tr[i], es[i]);
      assert tr[i + 1] == Next(tr[i], es[i]);
      WorkHolds(tr, es, i);
      ReferencesHold(tr, es, i);
      LedgerHolds(tr, es, i);
      StepFits(tr[i], es[i], m);
      DrainsWithin(tr, es, i + 1, j, m);
      WorkBounded(tr[i + 1], m);
      if !Failing(tr[i], es[i]) { StepMeasure(tr[i], es[i]); }
      DrainSum(Steps(tr, es, i + 1, j), Work(tr[i]), Work(tr[i + 1]), Failures(tr, es, i + 1, j),
               Limit(m, |tr[i].consumers|), Effective(tr[i], es[i]), Failing(tr[i], es[i]));
    }
  }

  lemma DrainSum(n: nat, w: nat, w': nat, f: nat, b: nat, moved: bool, failed: bool)
    requires n <= w' + f * (b + 1) && w' <= b
    requires failed || (if moved then w' < w else w' <= w)
    ensures n + (if moved then 1 else 0) <= w + (f + if failed then 1 else 0) * (b + 1)
  {
    assert (f + 1) * (b + 1) == f * (b + 1) + b + 1;
  }

  /** All the messages in the queue and in the consumers' hands. */
  function Messages(s: State): nat {
    |s.ready| + Held(s.consumers)
  }

  function Held(ks: seq<Consumer>): nat
    decreases |ks|
  {
    if ks == [] then 0 else Held(ks[..|ks| - 1]) + |ks[|ks| - 1].inbox|
  }

  lemma {:induction false} HeldHoldsEach(ks: seq<Consumer>)
    ensures Unacks(ks) <= Held(ks)
    ensures forall k :: k in ks ==> |k.inbox| <= Held(ks)
    decreases |ks|
  {
    if ks != [] {
      HeldHoldsEach(ks[..|ks| - 1]);
      forall k | k in ks ensures k in ks[..|ks| - 1] || k == ks[|ks| - 1] {}
    }
  }

  /** Draining terminates: from any reachable state on, while nothing is published, the number of steps that move a
      message or a consumer is bounded by the work at hand, the number of failed calls and lost consumers and the number
      of synchronous commits.  The consumers' own contention is paid for, however many commits are refused because
      others have overtaken them.  Requests, readers, evictions and time passing may be interleaved at will. */
  lemma DrainTerminates(tr: seq<State>, es: seq<Event>, i: nat, j: nat)
    requires Behavior(tr, es) && i <= j <= |es|
    requires forall k :: i <= k < j ==> NotPublishing(tr[k], es[k])
    ensures Steps(tr, es, i, j)
         <= Work(tr[i]) + Failures(tr, es, i, j) * (Limit(Messages(tr[i]), |tr[i].consumers|) + 1)
  {
    hide Next, Effective, Failing, Work, Limit, Aligned, Steps, Failures, NotPublishing, Initial;
    WorkHolds(tr, es, i);
    HeldHoldsEach(tr[i].consumers);
    DrainsWithin(tr, es, i, j, Messages(tr[i]));
  }

  // ---- Completion ----------------------------------------------------------

  /** No consumer can make a step of its own; crashing does not count. */
  ghost predicate Stuck(s: State) {
    forall c: nat, ce: ConsumerEvent ::
      c < |s.consumers| && !ce.Crash? && !ce.Disconnect? ==> StepConsumer(s, c, ce) == s
  }

  /** The step a consumer's program is about to make. */
  function Ready(k: Consumer): ConsumerEvent {
    match k.pc
    case Idle => if k.inbox != [] then Claim(Done) else Deliver
    case Claimed(_) => Begin(true)
    case Begun(_, _) => SetStatus(true)
    case StatusSet(_, _) => SetBalance(true)
    case BalanceSet(_, _) => DoCommit(Done)
    case DropBalance(_, _) => DeleteBalance(true)
    case DropTransaction(_) => DeleteTransaction(true)
    case ToAck(_) => Ack
    case ToNack(_) => Nack
  }

  lemma StuckConsumerIsQuiet(s: State, c: nat)
    requires c < |s.consumers| && Aligned(s.consumers[c])
    requires StepConsumer(s, c, Ready(s.consumers[c])) == s
    ensures s.consumers[c].pc.Idle? && s.consumers[c].inbox == []
    ensures s.consumers[c].up ==> s.ready == []
  {}

  /** When the consumers, one of them connected, have nothing more they can do, every message that was ever enqueued has
      been acked, at least one of its passes has committed, and its row is `completed` unless a stray consumer has
      claimed it since its last commit. */
  lemma StuckMeansDone(tr: seq<State>, es: seq<Event>, i: nat)
    requires Behavior(tr, es) && i <= |es| && Stuck(tr[i])
    requires exists k :: k in tr[i].consumers && k.up
    ensures tr[i].ready == [] && forall k :: k in tr[i].consumers ==> k.pc.Idle? && k.inbox == []
    ensures forall t :: t in tr[i].hist.enqueued ==>
              && t in tr[i].hist.acked && Passes(tr[i].hist.log, t) >= 1
              && t in tr[i].db.txns && (tr[i].db.txns[t].status.Completed? <==> !Astray(tr, es, i, t))
  {
    hide StepConsumer, Ready, Behavior, Astray, Passes;
    BehaviorStep(tr, es);
    var s := tr[i];
    WorkHolds(tr, es, i);
    forall c | 0 <= c < |s.consumers|
      ensures s.consumers[c].pc.Idle? && s.consumers[c].inbox == [] && (s.consumers[c].up ==> s.ready == [])
    {
      ReadyIsOwn(s.consumers[c]);
      assert StepConsumer(s, c, Ready(s.consumers[c])) == s;
      StuckConsumerIsQuiet(s, c);
    }
    forall t | t in s.hist.enqueued ensures t in s.hist.acked { QuietIsAcked(tr, es, i, t); }
    forall t | t in s.hist.enqueued
      ensures Passes(s.hist.log, t) >= 1 && t in s.db.txns
      ensures s.db.txns[t].status.Completed? <==> !Astray(tr, es, i, t)
    {
      AckedIsCompletedIff(tr, es, i, i, t);
    }
  }

  lemma QuietIsAcked(tr: seq<State>, es: seq<Event>, i: nat, t: TxnId)
    requires Behavior(tr, es) && i <= |es| && t in tr[i].hist.enqueued
    requires tr[i].ready == [] && forall c :: 0 <= c < |tr[i].consumers| ==> tr[i].consumers[c].inbox == []
    ensures t in tr[i].hist.acked
  {
    hide Behavior;
    BehaviorStep(tr, es);
    WorkHolds(tr, es, i);
    QueueHolds(tr, es, i);
    var p :| At(tr[i], p, t);
  }

  lemma ReadyIsOwn(k: Consumer)
    ensures !Ready(k).Crash? && !Ready(k).Disconnect?
  {}
}

/** Runs that show what the code does not promise, for any database, user, amount and configuration. */
module Examples {
  import opened Domain
  import opened Stores
  import opened Protocol
  import opened Traces
  import opened References
  import opened Staleness

  /** The states an event sequence passes through. */
  ghost function Trace(s: State, es: seq<Event>): (tr: seq<State>)
    ensures Execution(tr, es) && tr[0] == s && tr[|es|] == Run(s, es)
    decreases |es|
  {
    hide Next;
    if es == [] then [s]
    else
      var front := es[..|es| - 1];
      assert es == front + [es[|es| - 1]];
      Trace(s, front) + [Next(Run(s, front), es[|es| - 1])]
  }

  lemma RunCons(s: State, e: Event, es: seq<Event>)
    ensures Run(s, [e] + es) == Run(Next(s, e), es)
  {
    hide Next;
    assert [e][..0] == [];
    RunConcat(s, [e], es);
  }

  lemma RunNothing(s: State)
    ensures Run(s, []) == s
  {}

  /** A request without an idempotency key goes all the way to the queue. */
  function Accept(req: Request, t: TxnId, reference: string): seq<Event> {
    [Post(req), OnHandler(0, DoCheckUser(true)), OnHandler(0, DoInsert(t, reference, Done)),
     OnHandler(0, DoPublish(Arrived))]
  }

  /** A pass of consumer `c` up to its commit. */
  function Pass(c: nat): seq<Event> {
    [OnConsumer(c, Claim(Done)), OnConsumer(c, Begin(true)), OnConsumer(c, SetStatus(true)),
     OnConsumer(c, SetBalance(true)), OnConsumer(c, DoCommit(Done))]
  }

  function Finish(c: nat): seq<Event> {
    [OnConsumer(c, DeleteBalance(true)), OnConsumer(c, DeleteTransaction(true)), OnConsumer(c, Ack)]
  }

  ghost predicate Accepts(db: Db, req: Request, t: TxnId) {
    UserActive(db, req.user) && Bound(req) && req.key == "" && t !in db.txns
  }

  lemma Arrives(s: State, req: Request)
    requires Bound(req) && s.handlers == []
    ensures Next(s, Post(req)) == s.(handlers := [Handler(req, CheckUser)], hist := s.hist.(step := s.hist.step + 1))
  {}

  lemma Checks(s: State, req: Request)
    requires s.handlers == [Handler(req, CheckUser)] && UserActive(s.db, req.user) && req.key == ""
    ensures Next(s, OnHandler(0, DoCheckUser(true))) ==
              s.(handlers := [Handler(req, Insert)], hist := s.hist.(step := s.hist.step + 1))
  {}

  lemma Inserts(s: State, req: Request, t: TxnId, reference: string)
    requires Accepts(s.db, req, t) && s.handlers == [Handler(req, Insert)]
    ensures Next(s, OnHandler(0, DoInsert(t, reference, Done))) ==
              s.(handlers := [Handler(req, HandlerPc.Publish(t))],
                 db := InsertRow(s.db, t, req, reference, Pending, s.clock),
                 hist := s.hist.(accepted := s.hist.accepted + [Accepted(t, req, false)], step := s.hist.step + 1))
  {}

  lemma Publishes(s: State, req: Request, t: TxnId)
    requires s.handlers == [Handler(req, HandlerPc.Publish(t))] && s.ready == []
    ensures Next(s, OnHandler(0, DoPublish(Arrived))) ==
              s.(handlers := [Handler(req, Replied(Response.Queued(t)))], ready := [MessageOf(t, req)],
                 hist := s.hist.(enqueued := s.hist.enqueued + {t}, step := s.hist.step + 1))
  {}

  lemma AcceptRuns(s: State, req: Request, t: TxnId, reference: string)
    requires Accepts(s.db, req, t) && s.handlers == [] && s.ready == []
    ensures
      var s' := Run(s, Accept(req, t, reference));
      && s'.db == InsertRow(s.db, t, req, reference, Pending, s.clock)
      && s'.ready == [MessageOf(t, req)] && s'.cache == s.cache && s'.consumers == s.consumers
      && s'.readers == s.readers && s'.cfg == s.cfg && s'.clock == s.clock
      && s'.hist.log == s.hist.log && s'.hist.acked == s.hist.acked
      && s'.hist.drops == s.hist.drops && s'.hist.step == s.hist.step + 4
  {
    hide Next, InsertRow, MessageOf;
    var a, b, c := Post(req), OnHandler(0, DoCheckUser(true)), OnHandler(0, DoInsert(t, reference, Done));
    var d := OnHandler(0, DoPublish(Arrived));
    var s1 := Next(s, a);
    var s2 := Next(s1, b);
    var s3 := Next(s2, c);
    Arrives(s, req);
    Checks(s1, req);
    Inserts(s2, req, t, reference);
    Publishes(s3, req, t);
    assert Accept(req, t, reference) == [a] + ([b] + ([c] + ([d] + [])));
    RunCons(s, a, [b] + ([c] + ([d] + [])));
    RunCons(s1, b, [c] + ([d] + []));
    RunCons(s2, c, [d] + []);
    RunCons(s3, d, []);
  }

  /** Consumer `c`, connected or not, is at `pc` with `m` the only message it holds; nothing else has moved. */
  ghost predicate Working(s: State, s': State, c: nat, pc: ConsumerPc, m: Message, up: bool) {
    && c < |s.consumers| && s'.consumers == s.consumers[c := Consumer(pc, [m], up)]
    && s'.ready == s.ready && s'.cache == s.cache && s'.readers == s.readers
    && s'.cfg == s.cfg && s'.clock == s.clock && s'.hist.acked == s.hist.acked && s'.hist.drops == s.hist.drops
  }

  lemma Claims(s: State, c: nat, m: Message)
    requires c < |s.consumers| && s.consumers[c].pc.Idle? && s.consumers[c].inbox == [m] && m.txn in s.db.txns
    ensures
      var s' := Next(s, OnConsumer(c, Claim(Done)));
      && Working(s, s', c, Claimed(m), m, s.consumers[c].up) && s'.hist == s.hist.(step := s.hist.step + 1)
      && s'.db == s.db.(txns := s.db.txns[m.txn := WithStatus(s.db.txns[m.txn], Processing, s.clock)])
  {}

  /** The statements of the transaction change nothing outside it. */
  lemma Proceeds(s: State, c: nat, m: Message, up: bool, e: ConsumerEvent, pc: ConsumerPc)
    requires c < |s.consumers| && s.consumers[c].inbox == [m] && s.consumers[c].up == up
    requires
      var k := s.consumers[c];
      || (e == Begin(true) && k.pc == Claimed(m) && pc == Begun(m, TakeSnapshot(s.db, m.txn, m.user, s.clock)))
      || (e == SetStatus(true) && k.pc.Begun? && k.pc.m == m && pc == StatusSet(m, k.pc.snap))
      || (e == SetBalance(true) && k.pc.StatusSet? && k.pc.m == m && pc == BalanceSet(m, k.pc.snap))
    ensures
      var s' := Next(s, OnConsumer(c, e));
      Working(s, s', c, pc, m, up) && s'.hist == s.hist.(step := s.hist.step + 1) && s'.db == s.db
  {}

  lemma Opens(s: State, c: nat, m: Message, up: bool)
    requires c < |s.consumers| && s.consumers[c] == Consumer(Claimed(m), [m], up)
    ensures
      var snap := TakeSnapshot(s.db, m.txn, m.user, s.clock);
      var s' := Run(s, [OnConsumer(c, Begin(true)), OnConsumer(c, SetStatus(true)), OnConsumer(c, SetBalance(true))]);
      && Working(s, s', c, BalanceSet(m, snap), m, up)
      && s'.hist == s.hist.(step := s.hist.step + 3) && s'.db == s.db
  {
    hide TakeSnapshot, Next, Run;
    var snap := TakeSnapshot(s.db, m.txn, m.user, s.clock);
    var a, b, d := OnConsumer(c, Begin(true)), OnConsumer(c, SetStatus(true)), OnConsumer(c, SetBalance(true));
    var s1 := Next(s, a);
    var s2 := Next(s1, b);
    Proceeds(s, c, m, up, Begin(true), Begun(m, snap));
    Proceeds(s1, c, m, up, SetStatus(true), StatusSet(m, snap));
    Proceeds(s2, c, m, up, SetBalance(true), BalanceSet(m, snap));
    assert [a, b, d] == [a] + ([b] + ([d] + []));
    RunCons(s, a, [b] + ([d] + []));
    RunCons(s1, b, [d] + []);
    RunCons(s2, d, []);
    RunNothing(Next(s2, d));
  }

  lemma Commits(s: State, c: nat, m: Message, up: bool)
    requires c < |s.consumers| && Refers(s.db, m)
    requires s.consumers[c] == Consumer(BalanceSet(m, TakeSnapshot(s.db, m.txn, m.user, s.clock)), [m], up)
    ensures
      var s' := Next(s, OnConsumer(c, DoCommit(Done)));
      && Working(s, s', c, DropBalance(m, |s.hist.log|), m, up)
      && s'.hist.log == s.hist.log + [Commit(m.txn, m.user, Delta(m.kind, m.amount), false, s.hist.step)]
      && s'.hist.step == s.hist.step + 1
      && Refers(s'.db, m) && s'.db.txns[m.txn].status.Completed?
      && s'.db.users[m.user].balance == s.db.users[m.user].balance + Delta(m.kind, m.amount)
  {}

  /** A whole pass that meets no failure completes the row and moves the balance, whatever the row's status was. */
  lemma PassRuns(s: State, c: nat, m: Message, up: bool)
    requires c < |s.consumers| && s.consumers[c] == Consumer(Idle, [m], up) && Refers(s.db, m)
    ensures
      var s' := Run(s, Pass(c));
      && Working(s, s', c, DropBalance(m, |s.hist.log|), m, up)
      && s'.hist.log == s.hist.log + [Commit(m.txn, m.user, Delta(m.kind, m.amount), false, s.hist.step + 4)]
      && s'.hist.step == s.hist.step + 5
      && Refers(s'.db, m) && s'.db.txns[m.txn].status.Completed?
      && s'.db.users[m.user].balance == s.db.users[m.user].balance + Delta(m.kind, m.amount)
  {
    hide Next, TakeSnapshot, Delta;
    var a, z := OnConsumer(c, Claim(Done)), OnConsumer(c, DoCommit(Done));
    var middle := [OnConsumer(c, Begin(true)), OnConsumer(c, SetStatus(true)), OnConsumer(c, SetBalance(true))];
    var s1 := Next(s, a);
    var s2 := Run(s1, middle);
    Claims(s, c, m);
    Opens(s1, c, m, up);
    Commits(s2, c, m, up);
    assert Pass(c) == [a] + (middle + [z]);
    RunCons(s, a, middle + [z]);
    RunSnoc(s1, middle, z);
  }

  lemma DropsBalance(s: State, c: nat, m: Message, entry: nat)
    requires c < |s.consumers| && s.consumers[c] == Consumer(DropBalance(m, entry), [m], true)
    ensures Next(s, OnConsumer(c, DeleteBalance(true))) ==
              s.(consumers := s.consumers[c := Consumer(DropTransaction(m), [m], true)],
                 cache := s.cache - {BalanceKey(m.user)},
                 hist := s.hist.(drops := s.hist.drops[entry := s.hist.step], step := s.hist.step + 1))
  {}

  lemma DropsTransaction(s: State, c: nat, m: Message)
    requires c < |s.consumers| && s.consumers[c] == Consumer(DropTransaction(m), [m], true)
    ensures Next(s, OnConsumer(c, DeleteTransaction(true))) ==
              s.(consumers := s.consumers[c := Consumer(ToAck(m), [m], true)],
                 cache := s.cache - {TransactionKey(m.txn)}, hist := s.hist.(step := s.hist.step + 1))
  {}

  lemma Acks(s: State, c: nat, m: Message)
    requires c < |s.consumers| && s.consumers[c] == Consumer(ToAck(m), [m], true)
    ensures Next(s, OnConsumer(c, Ack)) ==
              s.(consumers := s.consumers[c := Consumer(Idle, [], true)],
                 hist := s.hist.(acked := s.hist.acked + {m.txn}, step := s.hist.step + 1))
  {
    assert [m][1..] == [];
  }

  /** Both keys are dropped and the message is acked. */
  lemma FinishRuns(s: State, c: nat, m: Message, entry: nat)
    requires c < |s.consumers| && s.consumers[c] == Consumer(DropBalance(m, entry), [m], true)
    ensures Run(s, Finish(c)) ==
              s.(consumers := s.consumers[c := Consumer(Idle, [], true)],
                 cache := s.cache - {BalanceKey(m.user)} - {TransactionKey(m.txn)},
                 hist := s.hist.(drops := s.hist.drops[entry := s.hist.step], acked := s.hist.acked + {m.txn},
                                 step := s.hist.step + 3))
  {
    hide Next;
    var a, b, d := OnConsumer(c, DeleteBalance(true)), OnConsumer(c, DeleteTransaction(true)), OnConsumer(c, Ack);
    var s1 := Next(s, a);
    var s2 := Next(s1, b);
    DropsBalance(s, c, m, entry);
    DropsTransaction(s1, c, m);
    Acks(s2, c, m);
    assert Finish(c) == [a] + ([b] + ([d] + []));
    RunCons(s, a, [b] + ([d] + []));
    RunCons(s1, b, [d] + []);
    RunCons(s2, d, []);
  }

  lemma Delivers(s: State, c: nat, m: Message)
    requires c < |s.consumers| && s.consumers[c] == Consumer(Idle, [], true) && s.ready == [m]
    ensures Next(s, OnConsumer(c, Deliver)) ==
              s.(consumers := s.consumers[c := Consumer(Idle, [m], true)], ready := [],
                 hist := s.hist.(step := s.hist.step + 1))
  {
    assert [m][1..] == [];
    assert [] + [m] == [m];
  }

  lemma Crashes(s: State, c: nat, m: Message)
    requires c < |s.consumers| && s.consumers[c].up && s.consumers[c].inbox == [m] && s.ready == []
    ensures Next(s, OnConsumer(c, Crash)) ==
              s.(consumers := s.consumers[c := Consumer(Idle, [], true)], ready := [m],
                 hist := s.hist.(step := s.hist.step + 1))
  {}

  lemma Disconnects(s: State, c: nat, m: Message)
    requires c < |s.consumers| && s.consumers[c] == Consumer(Idle, [m], true) && s.ready == []
    ensures Next(s, OnConsumer(c, Disconnect)) ==
              s.(consumers := s.consumers[c := Consumer(Idle, [m], false)], ready := [m],
                 hist := s.hist.(step := s.hist.step + 1))
  {}

  /** The row and user of an accepted request, once it is in the queue. */
  lemma Queued(cfg: Config, clock: Time, db: Db, n: nat, req: Request, t: TxnId, reference: string)
    requires Accepts(db, req, t)
    ensures
      var s0 := Start(cfg, clock, db, n);
      var s := Run(s0, Accept(req, t, reference));
      && s.ready == [MessageOf(t, req)] && Refers(s.db, MessageOf(t, req)) && s.consumers == s0.consumers
      && s.db.users == db.users && s.cache == map[] && s.readers == [] && s.cfg == cfg && s.clock == clock
      && s.hist.log == [] && s.hist.acked == {} && s.hist.drops == map[]
  {
    AcceptRuns(Start(cfg, clock, db, n), req, t, reference);
  }

  // ---- The runs ------------------------------------------------------------

  /** The consumer dies after its commit and before its ack. */
  function CrashRun(req: Request, t: TxnId, reference: string): seq<Event> {
    Accept(req, t, reference) + [OnConsumer(0, Deliver)] + Pass(0) + [OnConsumer(0, Crash)]
    + [OnConsumer(0, Deliver)] + Pass(0) + Finish(0)
  }

  /** A crash between Commit and Ack pays twice, and nothing is left to show for it: the queue is drained and the one
      message acked. */
  lemma CrashPaysTwice(cfg: Config, clock: Time, db: Db, req: Request, t: TxnId, reference: string)
    requires Accepts(db, req, t)
    ensures
      var s0 := Start(cfg, clock, db, 1);
      var s := Run(s0, CrashRun(req, t, reference));
      && Behavior(Trace(s0, CrashRun(req, t, reference)), CrashRun(req, t, reference))
      && s.ready == [] && s.consumers == [Consumer(Idle, [], true)] && t in s.hist.acked
      && req.user in s.db.users
      && s.db.users[req.user].balance == db.users[req.user].balance + 2 * Delta(req.kind, req.amount)
  {
    hide Next, Run, Accept, Pass, Finish, Delta;
    var m := MessageOf(t, req);
    var s0 := Start(cfg, clock, db, 1);
    var a := Accept(req, t, reference);
    var s1 := Run(s0, a);
    Queued(cfg, clock, db, 1, req, t, reference);
    var s2 := Next(s1, OnConsumer(0, Deliver));
    Delivers(s1, 0, m);
    RunSnoc(s0, a, OnConsumer(0, Deliver));
    var b := a + [OnConsumer(0, Deliver)];
    var s3 := Run(s2, Pass(0));
    PassRuns(s2, 0, m, true);
    RunConcat(s0, b, Pass(0));
    var s4 := Next(s3, OnConsumer(0, Crash));
    Crashes(s3, 0, m);
    RunSnoc(s0, b + Pass(0), OnConsumer(0, Crash));
    var d := b + Pass(0) + [OnConsumer(0, Crash)];
    var s5 := Next(s4, OnConsumer(0, Deliver));
    Delivers(s4, 0, m);
    RunSnoc(s0, d, OnConsumer(0, Deliver));
    var f := d + [OnConsumer(0, Deliver)];
    var s6 := Run(s5, Pass(0));
    PassRuns(s5, 0, m, true);
    RunConcat(s0, f, Pass(0));
    FinishRuns(s6, 0, m, |s5.hist.log|);
    RunConcat(s0, f + Pass(0), Finish(0));
  }

  /** A consumer loses its channel with a message in its buffer; another takes the message and acks it; the first,
      which has not noticed, claims the row, and dies. */
  function StrayRun(req: Request, t: TxnId, reference: string): seq<Event> {
    Accept(req, t, reference) + [OnConsumer(0, Deliver)] + [OnConsumer(0, Disconnect)] + [OnConsumer(1, Deliver)]
    + Pass(1) + Finish(1) + [OnConsumer(0, Claim(Done))] + [OnConsumer(0, Crash)]
  }

  lemma StrayCrashes(s: State, c: nat)
    requires c < |s.consumers| && !s.consumers[c].up
    ensures Next(s, OnConsumer(c, Crash)) ==
              s.(consumers := s.consumers[c := Consumer(Idle, [], true)], hist := s.hist.(step := s.hist.step + 1))
  {}

  /** Without crash-stop an acked, paid transaction can be left `processing` for good: no message of it remains. */
  lemma StrayLeavesProcessing(cfg: Config, clock: Time, db: Db, req: Request, t: TxnId, reference: string)
    requires Accepts(db, req, t)
    ensures
      var s0 := Start(cfg, clock, db, 2);
      var s := Run(s0, StrayRun(req, t, reference));
      && Behavior(Trace(s0, StrayRun(req, t, reference)), StrayRun(req, t, reference))
      && s.ready == [] && s.consumers == [Consumer(Idle, [], true), Consumer(Idle, [], true)] && t in s.hist.acked
      && t in s.db.txns && s.db.txns[t].status.Processing?
      && req.user in s.db.users
      && s.db.users[req.user].balance == db.users[req.user].balance + Delta(req.kind, req.amount)
  {
    hide Next, Run, Accept, Pass, Finish, Delta;
    var m := MessageOf(t, req);
    var s0 := Start(cfg, clock, db, 2);
    var a := Accept(req, t, reference);
    var s1 := Run(s0, a);
    Queued(cfg, clock, db, 2, req, t, reference);
    var s2 := Next(s1, OnConsumer(0, Deliver));
    Delivers(s1, 0, m);
    RunSnoc(s0, a, OnConsumer(0, Deliver));
    var b := a + [OnConsumer(0, Deliver)];
    var s3 := Next(s2, OnConsumer(0, Disconnect));
    Disconnects(s2, 0, m);
    RunSnoc(s0, b, OnConsumer(0, Disconnect));
    var d := b + [OnConsumer(0, Disconnect)];
    var s4 := Next(s3, OnConsumer(1, Deliver));
    Delivers(s3, 1, m);
    RunSnoc(s0, d, OnConsumer(1, Deliver));
    var f := d + [OnConsumer(1, Deliver)];
    var s5 := Run(s4, Pass(1));
    PassRuns(s4, 1, m, true);
    RunConcat(s0, f, Pass(1));
    var s6 := Run(s5, Finish(1));
    FinishRuns(s5, 1, m, |s4.hist.log|);
    RunConcat(s0, f + Pass(1), Finish(1));
    var g := f + Pass(1) + Finish(1);
    var s7 := Next(s6, OnConsumer(0, Claim(Done)));
    Claims(s6, 0, m);
    RunSnoc(s0, g, OnConsumer(0, Claim(Done)));
    StrayCrashes(s7, 0);
    RunSnoc(s0, g + [OnConsumer(0, Claim(Done))], OnConsumer(0, Crash));
  }

  /** A reader queries the balance, a pass commits and deletes the key, and only then does the reader store. */
  function LateRun(req: Request, t: TxnId, reference: string): seq<Event> {
    Accept(req, t, reference)
    + [GetKey(BalanceKey(req.user)), OnReader(0, DoProbe(true)), OnReader(0, DoQuery(true))]
    + [OnConsumer(0, Deliver)] + Pass(0) + Finish(0) + [OnReader(0, DoStore(true))]
  }

  lemma Reads(s: State, u: UserId)
    requires s.readers == [] && s.cache == map[] && u in s.db.users
    ensures
      var val := BalanceVal(u, s.db.users[u].balance, s.db.users[u].active);
      Run(s, [GetKey(BalanceKey(u)), OnReader(0, DoProbe(true)), OnReader(0, DoQuery(true))]) ==
        s.(readers := [Reader(BalanceKey(u), s.clock, ReaderPc.Store(val, s.hist.step + 2, s.clock))],
           hist := s.hist.(step := s.hist.step + 3))
  {
    hide Next, Run;
    var a, b, d := GetKey(BalanceKey(u)), OnReader(0, DoProbe(true)), OnReader(0, DoQuery(true));
    var s1 := Next(s, a);
    var s2 := Next(s1, b);
    ReadSteps(s, u);
    assert [a, b, d] == [a] + ([b] + ([d] + []));
    RunCons(s, a, [b] + ([d] + []));
    RunCons(s1, b, [d] + []);
    RunCons(s2, d, []);
    RunNothing(Next(s2, d));
  }

  lemma ReadSteps(s: State, u: UserId)
    requires s.readers == [] && s.cache == map[] && u in s.db.users
    ensures
      var val := BalanceVal(u, s.db.users[u].balance, s.db.users[u].active);
      Next(Next(Next(s, GetKey(BalanceKey(u))), OnReader(0, DoProbe(true))), OnReader(0, DoQuery(true))) ==
        s.(readers := [Reader(BalanceKey(u), s.clock, ReaderPc.Store(val, s.hist.step + 2, s.clock))],
           hist := s.hist.(step := s.hist.step + 3))
  {
    hide StepHandler, StepConsumer, StepSync;
    var s1 := Next(s, GetKey(BalanceKey(u)));
    assert s1.readers == [Reader(BalanceKey(u), s.clock, Probe)];
    assert Next(s1, OnReader(0, DoProbe(true))).readers == [Reader(BalanceKey(u), s.clock, Query)];
  }

  lemma StoresLate(s: State, u: UserId, val: CacheValue, readStep: nat)
    requires s.readers == [Reader(BalanceKey(u), s.clock, ReaderPc.Store(val, readStep, s.clock))]
    ensures
      var s' := Next(s, OnReader(0, DoStore(true)));
      && s'.cache == s.cache[BalanceKey(u) := Entry(val, s.clock + s.cfg.ttl, readStep, s.clock, s.hist.step)]
      && s'.db == s.db && s'.hist == s.hist.(step := s.hist.step + 1)
  {}

  /** With every delete succeeding and no other writer, the cache can still be left with the balance from before a
      commit, until it expires. */
  lemma LateStoreGoesStale(cfg: Config, clock: Time, db: Db, req: Request, t: TxnId, reference: string)
    requires Accepts(db, req, t)
    ensures
      var s0 := Start(cfg, clock, db, 1);
      var s := Run(s0, LateRun(req, t, reference));
      && Behavior(Trace(s0, LateRun(req, t, reference)), LateRun(req, t, reference))
      && BalanceKey(req.user) in s.cache && req.user in s.db.users
      && s.cache[BalanceKey(req.user)].val == BalanceVal(req.user, db.users[req.user].balance, true)
      && s.db.users[req.user].balance != db.users[req.user].balance
      && Explains(s, req.user, s.cache[BalanceKey(req.user)], 0, LateStore)
  {
    hide Next, Run, Accept, Pass, Finish;
    var m, u := MessageOf(t, req), req.user;
    var s0 := Start(cfg, clock, db, 1);
    var a := Accept(req, t, reference);
    var s1 := Run(s0, a);
    Queued(cfg, clock, db, 1, req, t, reference);
    var q := [GetKey(BalanceKey(u)), OnReader(0, DoProbe(true)), OnReader(0, DoQuery(true))];
    var s2 := Run(s1, q);
    Reads(s1, u);
    RunConcat(s0, a, q);
    var s3 := Next(s2, OnConsumer(0, Deliver));
    Delivers(s2, 0, m);
    RunSnoc(s0, a + q, OnConsumer(0, Deliver));
    var b := a + q + [OnConsumer(0, Deliver)];
    var s4 := Run(s3, Pass(0));
    PassRuns(s3, 0, m, true);
    RunConcat(s0, b, Pass(0));
    var s5 := Run(s4, Finish(0));
    FinishRuns(s4, 0, m, |s3.hist.log|);
    RunConcat(s0, b + Pass(0), Finish(0));
    StoresLate(s5, u, BalanceVal(u, db.users[u].balance, true), s1.hist.step + 2);
    RunSnoc(s0, b + Pass(0) + Finish(0), OnReader(0, DoStore(true)));
    assert CommitAfter(Run(s0, LateRun(req, t, reference)), u, s1.hist.step + 2, 0);
  }
}

/** The request handlers and the consumer loop as the service runs them, statement by statement on its stores.
    Each is proved to do what the machine of Protocol does when that one process runs alone from any state: the stores
    and the answer are those of a run made of the process's own events. */
module Handlers {
  import opened Domain
  import opened Stores
  import opened Protocol
  import opened Traces
  import opened CacheKeys
  import opened Services
  import opened Outcomes

  /** User ids are UUIDs. */
  ghost predicate PlainIds(db: Db) {
    forall u :: u in db.users ==> ':' !in u.text
  }

  /** A run in which only one handler, started by the first event, takes steps, each with the outcome its call meets. */
  ghost predicate HandlerRun(es: seq<Event>, req: Request, h: nat, calls: set<HandlerEvent>) {
    && es != [] && es[0] == Post(req)
    && forall i :: 1 <= i < |es| ==> es[i].OnHandler? && es[i].h == h && es[i].he in calls
  }

  ghost predicate ConsumerRun(es: seq<Event>, c: nat, calls: set<ConsumerEvent>) {
    forall i :: 0 <= i < |es| ==> es[i].OnConsumer? && es[i].c == c && es[i].ce in calls
  }

  ghost predicate SyncRun(es: seq<Event>, req: Request, v: nat, calls: set<SyncEvent>) {
    && es != [] && es[0] == PostSync(req)
    && forall i :: 1 <= i < |es| ==> es[i].OnSync? && es[i].v == v && es[i].ve in calls
  }

  /** The run of one reader, with time passing between its steps. */
  ghost predicate ReaderRun(es: seq<Event>, key: Key, r: nat, calls: set<ReaderEvent>) {
    && es != [] && es[0] == GetKey(key)
    && forall i :: 1 <= i < |es| ==> es[i].Tick? || (es[i].OnReader? && es[i].r == r && es[i].re in calls)
  }

  lemma RunFirst(s: State, e: Event)
    ensures Run(s, [e]) == Next(s, e)
  {}

  /** The handler's calls, each with its outcome; a message that arrives at a full queue is dropped. */
  function Calls(o: CreateOutcomes, t: TxnId, reference: string, full: bool): set<HandlerEvent> {
    {DoCheckUser(o.user), DoCheckKey(o.lookup), DoInsert(t, reference, o.insert), DoSetKey(o.remember),
     DoPublish(if full then Dropped(o.publish) else o.publish)}
  }

  function PassCalls(o: PassOutcomes): set<ConsumerEvent> {
    {Claim(o.claim), Begin(o.begin), SetStatus(o.status), SetBalance(o.balance), DoCommit(o.commit),
     DeleteBalance(o.deleteBalance), DeleteTransaction(o.deleteTransaction)}
  }

  /** What a turn of the delivery loop meets: how many messages the broker hands over beforehand, and how the calls of
      the pass turn out. */
  datatype Turn = Turn(handed: nat, pass: PassOutcomes)

  /** Turns after the last plan meet no failure. */
  function PlanAt(plans: seq<Turn>, i: nat): Turn {
    if i < |plans| then plans[i] else Turn(0, AllGood())
  }

  function TurnCalls(o: PassOutcomes): set<ConsumerEvent> {
    {Deliver, Ack, Nack} + PassCalls(o)
  }

  function Concat(runs: seq<seq<Event>>): seq<Event>
    decreases |runs|
  {
    if runs == [] then [] else Concat(runs[..|runs| - 1]) + runs[|runs| - 1]
  }

  /** Run `i` of the loop meets the outcomes of plan `i`. */
  ghost predicate LoopRuns(runs: seq<seq<Event>>, c: nat, plans: seq<Turn>) {
    forall i :: 0 <= i < |runs| ==> ConsumerRun(runs[i], c, TurnCalls(PlanAt(plans, i).pass))
  }

  /** The runs of the loop's finished passes, the run since, and the passes. */
  datatype Progress = Progress(runs: seq<seq<Event>>, run: seq<Event>, passes: seq<Pass>)

  function SyncCalls(o: SyncOutcomes, t: TxnId, reference: string): set<SyncEvent> {
    {DoSyncCheck(o.user), DoSyncBegin(o.begin), DoSyncInsert(o.insert), DoSyncBalance(o.balance),
     DoSyncCommit(t, reference, o.commit)}
  }

  /** The run with one more event. */
  ghost function Extend(s: State, es: seq<Event>, e: Event): (longer: seq<Event>)
    ensures longer == es + [e] && Run(s, longer) == Next(Run(s, es), e)
  {
    RunSnoc(s, es, e);
    es + [e]
  }

  ghost function ExtendHandler(s: State, es: seq<Event>, req: Request, h: nat, calls: set<HandlerEvent>,
                               e: HandlerEvent)
    : (longer: seq<Event>)
    requires HandlerRun(es, req, h, calls) && e in calls
    ensures Run(s, longer) == Next(Run(s, es), OnHandler(h, e)) && HandlerRun(longer, req, h, calls)
  {
    RunSnoc(s, es, OnHandler(h, e));
    es + [OnHandler(h, e)]
  }

  lemma HandlerRunStarts(req: Request, h: nat, calls: set<HandlerEvent>)
    ensures HandlerRun([Post(req)], req, h, calls)
  {}

  ghost function ExtendPass(s: State, es: seq<Event>, c: nat, calls: set<ConsumerEvent>, e: ConsumerEvent)
    : (longer: seq<Event>)
    requires ConsumerRun(es, c, calls) && e in calls
    ensures Run(s, longer) == Next(Run(s, es), OnConsumer(c, e)) && ConsumerRun(longer, c, calls)
  {
    RunSnoc(s, es, OnConsumer(c, e));
    es + [OnConsumer(c, e)]
  }

  ghost function ExtendSync(s: State, es: seq<Event>, req: Request, v: nat, calls: set<SyncEvent>, e: SyncEvent)
    : (longer: seq<Event>)
    requires SyncRun(es, req, v, calls) && e in calls
    ensures Run(s, longer) == Next(Run(s, es), OnSync(v, e)) && SyncRun(longer, req, v, calls)
  {
    RunSnoc(s, es, OnSync(v, e));
    es + [OnSync(v, e)]
  }

  lemma SyncRunStarts(req: Request, v: nat, calls: set<SyncEvent>)
    ensures SyncRun([PostSync(req)], req, v, calls)
  {}

  lemma NoSteps(s: State, c: nat, calls: set<ConsumerEvent>)
    ensures Run(s, []) == s && ConsumerRun([], c, calls)
  {}

  lemma ConsumerRunConcat(a: seq<Event>, b: seq<Event>, c: nat, calls: set<ConsumerEvent>, more: set<ConsumerEvent>)
    requires ConsumerRun(a, c, more) && ConsumerRun(b, c, calls) && calls <= more
    ensures ConsumerRun(a + b, c, more)
  {}

  /** An idle consumer whose next message is `m`. */
  ghost predicate Takes(s: State, c: nat, m: Message) {
    && c < |s.consumers| && s.consumers[c].pc.Idle? && s.consumers[c].up
    && s.consumers[c].inbox != [] && s.consumers[c].inbox[0] == m
  }

  ghost predicate InPass(s: State, c: nat, pc: ConsumerPc, inbox: seq<Message>) {
    c < |s.consumers| && s.consumers[c] == Consumer(pc, inbox, true)
  }

  /** Steps of a pass that leave the stores alone. */
  lemma LocalStep(s: State, c: nat, m: Message, e: ConsumerEvent)
    requires c < |s.consumers| && s.consumers[c].up
    requires
      || (e == Begin(false) && s.consumers[c].pc == Claimed(m))
      || (e.SetStatus? && s.consumers[c].pc.Begun? && s.consumers[c].pc.m == m)
      || (e.SetBalance? && s.consumers[c].pc.StatusSet? && s.consumers[c].pc.m == m)
    ensures
      var s', k := Next(s, OnConsumer(c, e)), s.consumers[c];
      && s'.db == s.db && s'.cache == s.cache && s'.ready == s.ready && s'.clock == s.clock && s'.cfg == s.cfg
      && s'.hist.log == s.hist.log
      && (e.Begin? ==> InPass(s', c, ToNack(m), k.inbox))
      && (e.SetStatus? ==> InPass(s', c, if e.ok then StatusSet(m, k.pc.snap) else ToNack(m), k.inbox))
      && (e.SetBalance? ==>
            InPass(s', c, if e.ok || !Listed(m.kind) then BalanceSet(m, k.pc.snap) else ToNack(m), k.inbox))
  {}

  lemma SyncArrives(s: State, req: Request)
    ensures
      var s' := Next(s, PostSync(req));
      && s'.(syncs := s.syncs, hist := s.hist) == s
      && |s'.syncs| == |s.syncs| + 1
      && s'.syncs[|s.syncs|] == Sync(req, if Bound(req) then SyncCheck else SyncRejected)
  {}

  /** Steps of a synchronous request before its commit. */
  lemma SyncLocalStep(s: State, v: nat, req: Request, e: SyncEvent)
    requires v < |s.syncs| && s.syncs[v].req == req
    requires
      || (e.DoSyncCheck? && s.syncs[v].pc.SyncCheck?) || (e.DoSyncBegin? && s.syncs[v].pc.SyncBegin?)
      || (e.DoSyncInsert? && s.syncs[v].pc.SyncInsert?) || (e.DoSyncBalance? && s.syncs[v].pc.SyncBalance?)
    ensures
      var s', pc := Next(s, OnSync(v, e)), s.syncs[v].pc;
      && s'.(syncs := s.syncs, hist := s.hist) == s && |s'.syncs| == |s.syncs|
      && s'.syncs[v] == Sync(req,
           match e
           case DoSyncCheck(ok) => if ok && UserActive(s.db, req.user) then SyncBegin else SyncRejected
           case DoSyncBegin(ok) =>
             if ok then SyncInsert(Snapshot(None, Lookup(s.db.users, req.user), s.clock)) else SyncFailed
           case DoSyncInsert(ok) => if ok then SyncBalance(pc.snap) else SyncFailed
           case DoSyncBalance(ok) => if ok then SyncCommit(pc.snap) else SyncFailed
           case _ => pc)
  {}

  lemma HeadParsed(bodies: seq<Body>)
    requires bodies != []
    ensures Parsed(bodies) == (match bodies[0] case Json(m) => [m] case Malformed => []) + Parsed(bodies[1..])
  {
    assert bodies == [bodies[0]] + bodies[1..];
    ParsedConcat([bodies[0]], bodies[1..]);
    ParsedOne(bodies[0]);
  }

  /** Taking the head off, or moving it to the queue's head. */
  lemma DropHead(unacked: seq<Body>, ready: seq<Body>)
    requires unacked != []
    ensures
      var head := match unacked[0] case Json(m) => multiset{m} case Malformed => multiset{};
      && multiset(Parsed(unacked + ready)) == head + multiset(Parsed(unacked[1..] + ready))
      && multiset(Parsed(unacked + ready)) == multiset(Parsed(unacked[1..] + ([unacked[0]] + ready)))
      && |unacked[1..] + ready| < |unacked + ready|
  {
    hide Parsed;
    HeadParsed(unacked);
    ParsedConcat(unacked, ready);
    ParsedConcat(unacked[1..], ready);
    ParsedConcat(unacked[1..], [unacked[0]] + ready);
    ParsedConcat([unacked[0]], ready);
    ParsedOne(unacked[0]);
  }

  /** A pass neither looks at the queue nor changes it. */
  lemma QueueIgnored(w: World, w': World, now: Time, p: Pass)
    requires w' == w.(queue := w'.queue)
    ensures forall q: seq<Body> ::
              AfterPass(w', now, p.m, p.o).(queue := q) == AfterPass(w, now, p.m, p.o).(queue := q)
  {
    hide Written, Moved;
  }

  /** The stores after one more pass. */
  lemma PassRecorded(w0: World, w: World, w': World, now: Time, passes: seq<Pass>, p: Pass)
    requires w == AfterPasses(w0, now, passes).(queue := w.queue)
    requires w' == AfterPass(w, now, p.m, p.o).(queue := w'.queue)
    ensures w' == AfterPasses(w0, now, passes + [p]).(queue := w'.queue)
    ensures Succeeded(passes + [p]) == Succeeded(passes) + if Succeeds(p.m, p.o) then [p.m] else []
  {
    hide AfterPass, AfterPasses, Succeeds, Succeeded;
    PassesSnoc(w0, now, passes, p);
    QueueIgnored(AfterPasses(w0, now, passes), w, now, p);
  }

  lemma AllGoodSucceeds(m: Message)
    ensures Succeeds(m, AllGood())
  {}

  lemma StillPlain(unacked: seq<Body>, ready: seq<Body>)
    requires unacked != []
    ensures forall body :: body in unacked[1..] + ready ==> body in unacked + ready
    ensures forall body :: body in unacked[1..] + ([unacked[0]] + ready) ==> body in unacked + ready
  {}

  lemma TurnCallsHold(o: PassOutcomes)
    ensures Deliver in TurnCalls(o) && PassCalls(o) <= TurnCalls(o)
  {}

  lemma LoopStarts(s: State, c: nat, plans: seq<Turn>, w: World, now: Time)
    ensures LoopRuns([], c, plans) && s == Run(s, Concat([]) + [])
    ensures ConsumerRun([], c, TurnCalls(PlanAt(plans, 0).pass))
    ensures AfterPasses(w, now, []) == w && Succeeded([]) == []
  {
    assert Concat([]) + [] == [];
  }

  lemma ParsedNothing()
    ensures Parsed([]) == []
  {}

  /** The run so far goes on with `more`. */
  lemma RunGoesOn(s0: State, before: seq<Event>, run: seq<Event>, more: seq<Event>, c: nat, calls: set<ConsumerEvent>)
    requires ConsumerRun(run, c, calls) && ConsumerRun(more, c, calls)
    ensures Run(s0, before + (run + more)) == Run(Run(s0, before + run), more) && ConsumerRun(run + more, c, calls)
  {
    hide ConsumerRun, Run;
    RunConcat(s0, before + run, more);
    ConsumerRunConcat(run, more, c, calls, calls);
    assert before + run + more == before + (run + more);
  }

  lemma LoopSnoc(runs: seq<seq<Event>>, run: seq<Event>, c: nat, plans: seq<Turn>)
    requires LoopRuns(runs, c, plans) && ConsumerRun(run, c, TurnCalls(PlanAt(plans, |runs|).pass))
    ensures LoopRuns(runs + [run], c, plans) && Concat(runs + [run]) == Concat(runs) + run
  {
    hide ConsumerRun, TurnCalls, PlanAt;
    assert (runs + [run])[..|runs|] == runs;
  }

  /** The keys' strings, letter by letter. */
  lemma Strings(req: Request, m: Message)
    ensures KeyString(IdempotencyKey(req.user, req.key)) == RedisKey(req)
    ensures KeyString(BalanceKey(m.user)) == "user:balance:" + m.user.text
    ensures KeyString(TransactionKey(m.txn)) == "txn:" + m.txn.text
  {}

  lemma StringOf(key: Key)
    ensures KeyString(key) == CacheString(key)
  {}

  lemma ReaderArrives(s: State, key: Key)
    requires !key.IdempotencyKey?
    ensures
      var s' := Next(s, GetKey(key));
      && s'.db == s.db && s'.cache == s.cache && s'.ready == s.ready && s'.clock == s.clock && s'.cfg == s.cfg
      && |s'.readers| == |s.readers| + 1 && s'.readers[|s.readers|] == Reader(key, s.clock, Probe)
  {}

  lemma Arrives(s: State, req: Request)
    ensures
      var s' := Next(s, Post(req));
      && s'.db == s.db && s'.cache == s.cache && s'.ready == s.ready && s'.clock == s.clock && s'.cfg == s.cfg
      && |s'.handlers| == |s.handlers| + 1
      && s'.handlers[|s.handlers|] == Handler(req, if Bound(req) then CheckUser else Replied(BadRequest))
  {}

  class Api {
    const pg: Postgres
    const redis: Redis
    const mq: RabbitMQ
    const cfg: Config
    var clock: Time

    constructor (pg: Postgres, redis: Redis, mq: RabbitMQ, cfg: Config, clock: Time)
      ensures this.pg == pg && this.redis == redis && this.mq == mq && this.cfg == cfg && this.clock == clock
    {
      this.pg, this.redis, this.mq, this.cfg, this.clock := pg, redis, mq, cfg, clock;
    }

    /** The stores hold what the machine's state holds. */
    ghost predicate Holds(s: State)
      reads this, pg, redis, mq
    {
      && s.cfg == cfg && s.clock == clock && s.db == pg.Value() && s.ready == Parsed(mq.ready)
      && Represents(redis.store, s.cache)
    }

    ghost function View(): World
      reads pg, redis, mq
    {
      World(pg.users, pg.txns, redis.store, mq.ready)
    }

    // ---- CreateTransaction -------------------------------------------------

    /** The id answered for a key already seen. */
    method LookupKey(req: Request, ok: bool, ghost s: State, ghost h: nat)
      returns (seen: Option<TxnId>, ghost s': State)
      requires Holds(s) && h < |s.handlers| && s.handlers[h] == Handler(req, CheckKey) && ':' !in req.user.text
      requires req.key != ""
      ensures seen == if Repeated(View(), clock, req, ok) then Some(redis.store[RedisKey(req)].val.id) else None
      ensures s' == Next(s, OnHandler(h, DoCheckKey(ok))) && Holds(s')
      ensures |s'.handlers| == |s.handlers|
      ensures s'.handlers[h] == Handler(req, if seen.Some? then Replied(AlreadyProcessed(seen.value)) else Insert)
    {
      hide KeyString, Represents, CacheGet;
      Strings(req, MessageOf(TxnId(""), req));
      var hit := redis.Get(KeyString(IdempotencyKey(req.user, req.key)), clock, ok);
      GetRepresented(redis.store, s.cache, IdempotencyKey(req.user, req.key), clock, ok);
      s' := Next(s, OnHandler(h, DoCheckKey(ok)));
      if hit.Some? && hit.value.IdVal? {
        return Some(hit.value.id), s';
      }
      return None, s';
    }

    method RememberKey(req: Request, t: TxnId, ok: bool, ghost s: State, ghost h: nat) returns (ghost s': State)
      requires Holds(s) && h < |s.handlers| && s.handlers[h] == Handler(req, SetKey(t)) && ':' !in req.user.text
      requires req.key != ""
      modifies redis
      ensures View() == Remembered(old(View()), clock, req, t, ok)
      ensures s' == Next(s, OnHandler(h, DoSetKey(ok))) && Holds(s')
      ensures |s'.handlers| == |s.handlers| && s'.handlers[h] == Handler(req, HandlerPc.Publish(t))
    {
      hide KeyString, Represents;
      Strings(req, MessageOf(t, req));
      var key := IdempotencyKey(req.user, req.key);
      ghost var e := Entry(IdVal(t), s.clock + IDEMPOTENCY_TTL, s.hist.step, s.clock, s.hist.step);
      SetRepresented(redis.store, s.cache, key, e);
      redis.Set(KeyString(key), IdVal(t), IDEMPOTENCY_TTL, clock, ok);
      s' := Next(s, OnHandler(h, DoSetKey(ok)));
    }

    method InsertPending(req: Request, t: TxnId, reference: string, outcome: Outcome, ghost s: State, ghost h: nat)
      returns (err: bool, ghost s': State)
      requires Holds(s) && h < |s.handlers| && s.handlers[h] == Handler(req, Insert)
      requires Acceptable(req) && req.user in pg.users
      modifies pg
      ensures err <==> outcome != Done || t in old(pg.txns)
      ensures pg.users == old(pg.users)
      ensures pg.txns == if outcome == NotDone || t in old(pg.txns) then old(pg.txns)
                         else old(pg.txns)[t := PendingRow(req, reference, clock)]
      ensures s' == Next(s, OnHandler(h, DoInsert(t, reference, outcome))) && Holds(s')
      ensures |s'.handlers| == |s.handlers|
      ensures s'.handlers[h] == Handler(req,
                if err then Replied(InsertFailed) else if req.key == "" then HandlerPc.Publish(t) else SetKey(t))
    {
      hide Represents;
      err := pg.InsertPending(t, req, reference, clock, outcome);
      assert pg.Value() == Db(pg.users, pg.txns);
      s' := Next(s, OnHandler(h, DoInsert(t, reference, outcome)));
    }

    method ValidateUser(req: Request, ok: bool, ghost s: State, ghost h: nat) returns (valid: bool, ghost s': State)
      requires Holds(s) && h < |s.handlers| && s.handlers[h] == Handler(req, CheckUser)
      ensures valid <==> ok && Known(View(), req.user)
      ensures s' == Next(s, OnHandler(h, DoCheckUser(ok))) && Holds(s')
      ensures |s'.handlers| == |s.handlers|
      ensures s'.handlers[h] == Handler(req,
                if !valid then Replied(InvalidUser) else if req.key == "" then Insert else CheckKey)
    {
      hide Represents;
      valid := pg.UserExists(req.user, ok);
      s' := Next(s, OnHandler(h, DoCheckUser(ok)));
    }

    /** A publish that finds the queue full, malformed messages included, is dropped by the broker. */
    method Enqueue(req: Request, t: TxnId, sending: Sending, ghost s: State, ghost h: nat)
      returns (err: bool, ghost s': State)
      requires Holds(s) && h < |s.handlers| && s.handlers[h] == Handler(req, HandlerPc.Publish(t))
      modifies mq`ready
      ensures err <==> sending == ArrivedUnseen || sending == Refused
      ensures View() == Sent(old(View()), Message(t, req.user, req.kind, req.amount), sending)
      ensures s' == Next(s, OnHandler(h, DoPublish(if |old(mq.ready)| >= 100_000 then Dropped(sending) else sending)))
      ensures Holds(s') && |s'.handlers| == |s.handlers|
      ensures s'.handlers[h] == Handler(req, Replied(if err then QueueUnavailable(t) else Response.Queued(t)))
    {
      hide Represents, Parsed;
      ghost var met := if |mq.ready| >= 100_000 then Dropped(sending) else sending;
      ParsedShorter(mq.ready);
      ParsedConcat(mq.ready, [Json(MessageOf(t, req))]);
      ParsedOne(Json(MessageOf(t, req)));
      err := mq.Publish(MessageOf(t, req), sending);
      s' := Next(s, OnHandler(h, DoPublish(met)));
    }

    /** The second half of `CreateTransaction`: insert a pending row, remember the key, publish. */
    method InsertAndPublish(req: Request, t: TxnId, reference: string, o: CreateOutcomes,
                            ghost s0: State, ghost s1: State, ghost es1: seq<Event>, ghost h: nat)
      returns (response: Response, ghost s: State, ghost es: seq<Event>)
      requires Holds(s1) && s1 == Run(s0, es1)
      requires HandlerRun(es1, req, h, Calls(o, t, reference, |mq.ready| >= 100_000))
      requires h < |s1.handlers| && s1.handlers[h] == Handler(req, Insert) && ':' !in req.user.text
      requires Acceptable(req) && req.user in pg.users
      modifies pg, redis, mq`ready
      ensures Holds(s) && s == Run(s0, es)
      ensures HandlerRun(es, req, h, Calls(o, t, reference, |old(mq.ready)| >= 100_000))
      ensures |s.handlers| == |s1.handlers| && s.handlers[h] == Handler(req, Replied(response))
      ensures response == if o.insert != Done || t in old(pg.txns) then InsertFailed
                          else if o.publish == ArrivedUnseen || o.publish == Refused then QueueUnavailable(t)
                          else Response.Queued(t)
      ensures View() == AfterInsert(old(View()), clock, req, t, reference, o)
      ensures response == Response.Queued(t) && o.publish == Arrived && |old(mq.ready)| < 100_000 ==>
                mq.ready == old(mq.ready) + [Json(Message(t, req.user, req.kind, req.amount))]
    {
      hide Next, Represents, HandlerRun, RedisKey, PendingRow;
      ghost var calls := Calls(o, t, reference, |mq.ready| >= 100_000);
      es, s := es1, s1;
      var err;
      err, s := InsertPending(req, t, reference, o.insert, s, h);
      es := ExtendHandler(s0, es, req, h, calls, DoInsert(t, reference, o.insert));
      if err {
        return InsertFailed, s, es;
      }
      if req.key != "" {
        s := RememberKey(req, t, o.remember, s, h);
        es := ExtendHandler(s0, es, req, h, calls, DoSetKey(o.remember));
      }
      ghost var met := if |mq.ready| >= 100_000 then Dropped(o.publish) else o.publish;
      es := ExtendHandler(s0, es, req, h, calls, DoPublish(met));
      err, s := Enqueue(req, t, o.publish, s, h);
      return if err then QueueUnavailable(t) else Response.Queued(t), s, es;
    }

    /** `CreateTransaction`: check the user, look the key up, then insert, remember and publish. */
    method CreateTransaction(req: Request, t: TxnId, reference: string, o: CreateOutcomes, ghost s0: State)
      returns (response: Response, ghost s: State, ghost es: seq<Event>)
      requires Holds(s0) && PlainIds(s0.db)
      modifies pg, redis, mq`ready
      ensures Holds(s) && s == Run(s0, es)
      ensures HandlerRun(es, req, |s0.handlers|, Calls(o, t, reference, |old(mq.ready)| >= 100_000))
      ensures |s.handlers| == |s0.handlers| + 1 && s.handlers[|s0.handlers|] == Handler(req, Replied(response))
      ensures response == CreateAnswer(old(View()), clock, req, t, o)
      ensures View() == AfterCreate(old(View()), clock, req, t, reference, o)
      ensures response == Response.Queued(t) && o.publish == Arrived && |old(mq.ready)| < 100_000 ==>
                mq.ready == old(mq.ready) + [Json(Message(t, req.user, req.kind, req.amount))]
      ensures
        (&& o == CreateOutcomes(true, true, Done, true, Arrived) && t !in old(pg.txns)
         && (req.kind == Credit || req.kind == Debit || req.kind == Transfer) && req.amount > 0
         && req.user in old(pg.users) && old(pg.users)[req.user].active
         && (req.key == "" || RedisKey(req) !in old(redis.store)))
        ==> response == Response.Queued(t)
    {
      hide Next, Represents, HandlerRun, RedisKey, AfterInsert;
      ghost var h, calls := |s0.handlers|, Calls(o, t, reference, |mq.ready| >= 100_000);
      es, s := [Post(req)], Next(s0, Post(req));
      Arrives(s0, req);
      HandlerRunStarts(req, h, calls);
      RunFirst(s0, Post(req));
      if !Bound(req) {
        return BadRequest, s, es;
      }
      var valid;
      valid, s := ValidateUser(req, o.user, s, h);
      es := ExtendHandler(s0, es, req, h, calls, DoCheckUser(o.user));
      if !valid {
        return InvalidUser, s, es;
      }
      if req.key != "" {
        var seen;
        seen, s := LookupKey(req, o.lookup, s, h);
        es := ExtendHandler(s0, es, req, h, calls, DoCheckKey(o.lookup));
        if seen.Some? {
          return AlreadyProcessed(seen.value), s, es;
        }
      }
      response, s, es := InsertAndPublish(req, t, reference, o, s0, s, es, h);
    }

    // ---- The consumer ------------------------------------------------------

    /** The autocommit update that claims the row. */
    method MarkRow(m: Message, outcome: Outcome, ghost s: State, ghost c: nat) returns (err: bool, ghost s': State)
      requires Holds(s) && Takes(s, c, m)
      modifies pg
      ensures err <==> outcome != Done
      ensures pg.users == old(pg.users)
      ensures pg.txns == if outcome == NotDone then old(pg.txns) else Written(old(pg.txns), m.txn, Processing, clock)
      ensures s' == Next(s, OnConsumer(c, Claim(outcome))) && Holds(s')
      ensures InPass(s', c, if err then ToNack(m) else Claimed(m), s.consumers[c].inbox)
    {
      hide Represents;
      err := pg.SetProcessing(m.txn, clock, outcome);
      assert pg.Value() == Db(pg.users, pg.txns);
      s' := Next(s, OnConsumer(c, Claim(outcome)));
    }

    method BeginTx(m: Message, ghost s: State, ghost c: nat) returns (tx: Tx, ghost s': State)
      requires Holds(s) && c < |s.consumers| && InPass(s, c, Claimed(m), s.consumers[c].inbox)
      ensures fresh(tx) && tx.pg == pg && tx.txn == m.txn && tx.user == m.user
      ensures tx.row == tx.snap.row && tx.account == tx.snap.account && !tx.wroteRow && !tx.wroteAccount
      ensures tx.snap == TakeSnapshot(s.db, m.txn, m.user, clock)
      ensures s' == Next(s, OnConsumer(c, Begin(true))) && Holds(s')
      ensures InPass(s', c, Begun(m, tx.snap), s.consumers[c].inbox)
    {
      hide Represents, TakeSnapshot;
      tx := new Tx(pg, m.txn, m.user, clock);
      s' := Next(s, OnConsumer(c, Begin(true)));
    }

    method CommitPass(tx: Tx, m: Message, outcome: Outcome, ghost s: State, ghost c: nat)
      returns (err: bool, ghost s': State)
      requires Holds(s) && c < |s.consumers| && InPass(s, c, BalanceSet(m, tx.snap), s.consumers[c].inbox)
      requires tx.pg == pg && tx.txn == m.txn && tx.user == m.user
      requires tx.snap == TakeSnapshot(s.db, m.txn, m.user, clock)
      requires tx.wroteRow && (tx.wroteAccount <==> Listed(m.kind))
      requires tx.row == Lookup(Written(pg.txns, m.txn, Completed, clock), m.txn)
      requires tx.wroteAccount ==> tx.account == Lookup(Moved(pg.users, m.user, m.kind, m.amount), m.user)
      modifies pg
      ensures err <==> outcome != Done
      ensures pg.txns == if outcome == NotDone then old(pg.txns) else Written(old(pg.txns), m.txn, Completed, clock)
      ensures pg.users == if outcome == NotDone then old(pg.users) else Moved(old(pg.users), m.user, m.kind, m.amount)
      ensures s' == Next(s, OnConsumer(c, DoCommit(outcome))) && Holds(s')
      ensures InPass(s', c, if err then ToNack(m) else DropBalance(m, |s.hist.log|), s.consumers[c].inbox)
    {
      hide Represents;
      err := tx.Commit(outcome);
      assert pg.Value() == Db(pg.users, pg.txns);
      s' := Next(s, OnConsumer(c, DoCommit(outcome)));
    }

    method DropKeys(m: Message, ghost entry: nat, okBalance: bool, okTransaction: bool, ghost s: State, ghost c: nat)
      returns (ghost s': State, ghost es: seq<Event>)
      requires Holds(s) && c < |s.consumers| && InPass(s, c, DropBalance(m, entry), s.consumers[c].inbox)
      requires ':' !in m.user.text
      modifies redis
      ensures redis.store == old(redis.store) - (if okBalance then {"user:balance:" + m.user.text} else {})
                                              - (if okTransaction then {"txn:" + m.txn.text} else {})
      ensures es == [OnConsumer(c, DeleteBalance(okBalance)), OnConsumer(c, DeleteTransaction(okTransaction))]
      ensures s' == Next(Next(s, es[0]), es[1]) && Holds(s')
      ensures InPass(s', c, ToAck(m), s.consumers[c].inbox)
    {
      hide KeyString, Represents, RedisKey;
      Strings(Request(m.user, m.kind, m.amount, "", ""), m);
      DeleteRepresented(redis.store, s.cache, BalanceKey(m.user));
      redis.Delete(KeyString(BalanceKey(m.user)), okBalance);
      ghost var mid := Next(s, OnConsumer(c, DeleteBalance(okBalance)));
      assert Holds(mid) && InPass(mid, c, DropTransaction(m), s.consumers[c].inbox);
      DeleteRepresented(redis.store, mid.cache, TransactionKey(m.txn));
      redis.Delete(KeyString(TransactionKey(m.txn)), okTransaction);
      es := [OnConsumer(c, DeleteBalance(okBalance)), OnConsumer(c, DeleteTransaction(okTransaction))];
      s' := Next(mid, OnConsumer(c, DeleteTransaction(okTransaction)));
    }

    /** The transaction's two statements, on its private copies.  What is left to do is the commit. */
    method RunStatements(m: Message, o: PassOutcomes, ghost s0: State, ghost s1: State, ghost es1: seq<Event>,
                         ghost c: nat)
      returns (tx: Tx, err: bool, ghost s: State, ghost es: seq<Event>)
      requires Holds(s1) && s1 == Run(s0, es1) && ConsumerRun(es1, c, PassCalls(o))
      requires c < |s1.consumers| && InPass(s1, c, Claimed(m), s1.consumers[c].inbox) && o.begin
      ensures Holds(s) && s == Run(s0, es) && ConsumerRun(es, c, PassCalls(o)) && s.db == s1.db
      ensures err <==> !(o.status && (o.balance || m.kind.Other?))
      ensures fresh(tx) && tx.pg == pg && tx.txn == m.txn && tx.user == m.user
      ensures tx.snap == TakeSnapshot(s.db, m.txn, m.user, clock)
      ensures InPass(s, c, if err then ToNack(m) else BalanceSet(m, tx.snap), s1.consumers[c].inbox)
      ensures !err ==>
                && tx.wroteRow && (tx.wroteAccount <==> Listed(m.kind))
                && tx.row == Lookup(Written(pg.txns, m.txn, Completed, clock), m.txn)
                && (tx.wroteAccount ==> tx.account == Lookup(Moved(pg.users, m.user, m.kind, m.amount), m.user))
    {
      hide Next, Represents, ConsumerRun, Delta;
      ghost var calls := PassCalls(o);
      tx, s := BeginTx(m, s1, c);
      es := ExtendPass(s0, es1, c, calls, Begin(true));

      LocalStep(s, c, m, SetStatus(o.status));
      es := ExtendPass(s0, es, c, calls, SetStatus(o.status));
      s := Run(s0, es);
      if !o.status {
        return tx, true, s, es;
      }
      tx.SetCompleted();

      LocalStep(s, c, m, SetBalance(o.balance));
      es := ExtendPass(s0, es, c, calls, SetBalance(o.balance));
      s := Run(s0, es);
      if Listed(m.kind) {
        if !o.balance {
          return tx, true, s, es;
        }
        tx.AddToBalance(match m.kind case Credit => m.amount case _ => -m.amount);
      }
      return tx, false, s, es;
    }

    /** `processTransaction`: claim the row, then complete it and move the balance in one serializable transaction,
        then invalidate both keys.  Alone, it fails exactly when one of its database calls reports an error. */
    method ProcessTransaction(m: Message, o: PassOutcomes, ghost s0: State, ghost c: nat)
      returns (err: bool, ghost s: State, ghost es: seq<Event>)
      requires Holds(s0) && Takes(s0, c, m) && ':' !in m.user.text
      modifies pg, redis
      ensures Holds(s) && s == Run(s0, es) && ConsumerRun(es, c, PassCalls(o))
      ensures InPass(s, c, if err then ToNack(m) else ToAck(m), s0.consumers[c].inbox)
      ensures err <==> !Succeeds(m, o)
      ensures View() == AfterPass(old(View()), clock, m, o)
    {
      hide Next, Represents, TakeSnapshot, ConsumerRun, Written, Moved;
      ghost var calls := PassCalls(o);
      NoSteps(s0, c, calls);
      es, s := [], s0;
      err, s := MarkRow(m, o.claim, s, c);
      es := ExtendPass(s0, es, c, calls, Claim(o.claim));
      if err {
        return true, s, es;
      }
      if !o.begin {
        LocalStep(s, c, m, Begin(false));
        es := ExtendPass(s0, es, c, calls, Begin(false));
        s := Run(s0, es);
        return true, s, es;
      }
      var tx;
      tx, err, s, es := RunStatements(m, o, s0, s, es, c);
      if err {
        return true, s, es;
      }
      ghost var entry := |s.hist.log|;
      err, s := CommitPass(tx, m, o.commit, s, c);
      es := ExtendPass(s0, es, c, calls, DoCommit(o.commit));
      if err {
        return true, s, es;
      }
      ghost var tail;
      s, tail := DropKeys(m, entry, o.deleteBalance, o.deleteTransaction, s, c);
      es := ExtendPass(s0, es, c, calls, DeleteBalance(o.deleteBalance));
      es := ExtendPass(s0, es, c, calls, DeleteTransaction(o.deleteTransaction));
      return false, s, es;
    }

    /** The broker hands over up to `want` messages, at least one if the client holds none, within the prefetch
        limit. */
    method HandOver(want: nat, ghost s0: State, ghost c: nat, ghost calls: set<ConsumerEvent>)
      returns (ghost s: State, ghost es: seq<Event>)
      requires Holds(s0) && Deliver in calls
      requires InPass(s0, c, Idle, Parsed(mq.unacked)) && mq.ready + mq.unacked != []
      modifies mq
      ensures Holds(s) && s == Run(s0, es) && ConsumerRun(es, c, calls) && InPass(s, c, Idle, Parsed(mq.unacked))
      ensures mq.unacked != [] && mq.unacked + mq.ready == old(mq.unacked + mq.ready)
      ensures
        var n := |mq.unacked| - |old(mq.unacked)|;
        && (n <= want || (n == 1 && old(mq.unacked) == []))
        && (n < want ==> mq.ready == [] || (cfg.prefetch > 0 && |mq.unacked| >= cfg.prefetch))
    {
      hide Next, Represents, ConsumerRun, Parsed;
      NoSteps(s0, c, calls);
      es, s := [], s0;
      var n := 0;
      while mq.ready != [] && (mq.unacked == [] || (n < want && (cfg.prefetch == 0 || |mq.unacked| < cfg.prefetch)))
        invariant Holds(s) && s == Run(s0, es) && ConsumerRun(es, c, calls) && InPass(s, c, Idle, Parsed(mq.unacked))
        invariant mq.unacked + mq.ready == old(mq.unacked + mq.ready) && n == |mq.unacked| - |old(mq.unacked)|
        invariant n <= want || (n == 1 && old(mq.unacked) == [])
        decreases |mq.ready|
      {
        if mq.ready[0].Json? { es := ExtendPass(s0, es, c, calls, Deliver); }
        s := Receive(s, c);
        n := n + 1;
      }
    }

    /** The user ids in the messages are UUIDs. */
    ghost predicate PlainQueue()
      reads mq
    {
      forall body :: body in mq.unacked + mq.ready && body.Json? ==> ':' !in body.m.user.text
    }

    /** One turn of the loop: some deliveries, then one message, which is discarded if malformed. */
    method NextTurn(turn: Turn, ghost s0: State, ghost c: nat)
      returns (done: Option<Message>, ghost s: State, ghost es: seq<Event>)
      requires Holds(s0) && InPass(s0, c, Idle, Parsed(mq.unacked)) && mq.unacked + mq.ready != [] && PlainQueue()
      modifies pg, redis, mq
      ensures Holds(s) && s == Run(s0, es) && ConsumerRun(es, c, TurnCalls(turn.pass))
      ensures InPass(s, c, Idle, Parsed(mq.unacked)) && PlainQueue()
      ensures View() == match done
                        case None => old(View()).(queue := mq.ready)
                        case Some(m) => AfterPass(old(View()), clock, m, turn.pass).(queue := mq.ready)
      ensures
        var finished := if done.Some? && Succeeds(done.value, turn.pass) then multiset{done.value} else multiset{};
        multiset(Parsed(old(mq.unacked + mq.ready))) == multiset(Parsed(mq.unacked + mq.ready)) + finished
      ensures
        if done.Some? && !Succeeds(done.value, turn.pass) then |mq.unacked + mq.ready| == |old(mq.unacked + mq.ready)|
        else |mq.unacked + mq.ready| < |old(mq.unacked + mq.ready)|
    {
      hide Next, Represents, ConsumerRun, Parsed, Written, Moved, TurnCalls;
      TurnCallsHold(turn.pass);
      s, es := HandOver(turn.handed, s0, c, TurnCalls(turn.pass));
      assert mq.unacked[0] in mq.unacked + mq.ready;
      DropHead(mq.unacked, mq.ready);
      StillPlain(mq.unacked, mq.ready);
      if mq.unacked[0].Json? {
        done := Some(mq.unacked[0].m);
        QueueIgnored(old(View()), View(), clock, Pass(mq.unacked[0].m, turn.pass));
        ghost var pass;
        s, pass := OneTurn(turn.pass, s, c);
        RunConcat(s0, es, pass);
        ConsumerRunConcat(es, pass, c, TurnCalls(turn.pass), TurnCalls(turn.pass));
        es := es + pass;
      } else {
        done := None;
        s := Discard(s, c);
      }
    }

    /** What the delivery loop has done since `s0`, `w0` and the messages `all`. */
    ghost predicate InLoop(p: Progress, s0: State, s: State, c: nat, plans: seq<Turn>, w0: World, all: seq<Body>)
      reads this, pg, redis, mq
    {
      && Holds(s) && s == Run(s0, Concat(p.runs) + p.run) && InPass(s, c, Idle, Parsed(mq.unacked)) && PlainQueue()
      && LoopRuns(p.runs, c, plans) && |p.runs| == |p.passes|
      && ConsumerRun(p.run, c, TurnCalls(PlanAt(plans, |p.passes|).pass))
      && (forall i :: 0 <= i < |p.passes| ==> p.passes[i].o == PlanAt(plans, i).pass)
      && View() == AfterPasses(w0, clock, p.passes).(queue := mq.ready)
      && multiset(Succeeded(p.passes)) + multiset(Parsed(mq.unacked + mq.ready)) == multiset(Parsed(all))
    }

    lemma LoopBegins(s0: State, c: nat, plans: seq<Turn>)
      requires Holds(s0) && InPass(s0, c, Idle, Parsed(mq.unacked)) && PlainQueue()
      ensures InLoop(Progress([], [], []), s0, s0, c, plans, View(), mq.unacked + mq.ready)
    {
      hide Represents, Parsed, PlainQueue, AfterPasses, Succeeded, TurnCalls;
      LoopStarts(s0, c, plans, View(), clock);
    }

    lemma LoopEnds(p: Progress, s0: State, s: State, c: nat, plans: seq<Turn>, w0: World, all: seq<Body>)
      requires InLoop(p, s0, s, c, plans, w0, all) && mq.unacked + mq.ready == []
      ensures Holds(s) && s == Run(s0, Concat(p.runs + [p.run])) && LoopRuns(p.runs + [p.run], c, plans)
      ensures mq.ready == mq.unacked == [] && InPass(s, c, Idle, [])
      ensures forall i :: 0 <= i < |p.passes| ==> p.passes[i].o == PlanAt(plans, i).pass
      ensures View() == AfterPasses(w0, clock, p.passes).(queue := [])
      ensures multiset(Succeeded(p.passes)) == multiset(Parsed(all))
    {
      hide Represents, PlainQueue, Parsed, AfterPasses, Succeeded, TurnCalls, LoopRuns, Run, ConsumerRun, Concat;
      LoopSnoc(p.runs, p.run, c, plans);
      ParsedNothing();
    }

    /** One turn of the loop. */
    method Advance(turn: Turn, ghost p: Progress, ghost s0: State, ghost s: State, ghost c: nat, ghost plans: seq<Turn>,
                   ghost w0: World, ghost all: seq<Body>)
      returns (passed: bool, ghost s': State, ghost p': Progress)
      requires InLoop(p, s0, s, c, plans, w0, all) && mq.unacked + mq.ready != [] && turn == PlanAt(plans, |p.passes|)
      modifies pg, redis, mq
      ensures InLoop(p', s0, s', c, plans, w0, all) && |p'.passes| == |p.passes| + if passed then 1 else 0
      ensures !passed || turn == Turn(0, AllGood()) ==> |mq.unacked + mq.ready| < |old(mq.unacked + mq.ready)|
    {
      hide Next, Run, Represents, ConsumerRun, LoopRuns, Parsed, AfterPass, AfterPasses, Succeeded, Succeeds, Concat,
           TurnCalls, PlainQueue, Holds;
      ghost var more, w := [], View();
      var done;
      done, s', more := NextTurn(turn, s, c);
      RunGoesOn(s0, Concat(p.runs), p.run, more, c, TurnCalls(turn.pass));
      passed := done.Some?;
      p' := p.(run := p.run + more);
      if passed {
        AllGoodSucceeds(done.value);
        LoopSnoc(p.runs, p'.run, c, plans);
        PassRecorded(w0, w, View(), clock, p.passes, Pass(done.value, turn.pass));
        p' := Progress(p.runs + [p'.run], [], p.passes + [Pass(done.value, turn.pass)]);
        NoSteps(s0, c, TurnCalls(PlanAt(plans, |p'.passes|).pass));
        assert Concat(p'.runs) + [] == Concat(p'.runs);
      }
    }

    /** The consumer's delivery loop, left to itself until nothing is left: pass `i` meets `plans[i]`, and passes after
        the last plan meet no failure.  It always empties the queue and the client's buffer, by steps of its own;
        malformed messages are discarded, and each other message succeeds in exactly one of its passes. */
    method StartConsumer(plans: seq<Turn>, ghost s0: State, ghost c: nat)
      returns (ghost s: State, ghost runs: seq<seq<Event>>, ghost passes: seq<Pass>)
      requires Holds(s0) && InPass(s0, c, Idle, Parsed(mq.unacked)) && PlainQueue()
      modifies pg, redis, mq
      ensures Holds(s) && s == Run(s0, Concat(runs)) && LoopRuns(runs, c, plans)
      ensures mq.ready == mq.unacked == [] && InPass(s, c, Idle, [])
      ensures forall i :: 0 <= i < |passes| ==> passes[i].o == PlanAt(plans, i).pass
      ensures View() == AfterPasses(old(View()), clock, passes).(queue := [])
      ensures multiset(Succeeded(passes)) == multiset(Parsed(old(mq.unacked + mq.ready)))
    {
      hide InLoop, Run, LoopRuns, Parsed, AfterPasses, Succeeded, Concat, PlainQueue, Holds, AllGood;
      ghost var w0, all := View(), mq.unacked + mq.ready;
      ghost var p := Progress([], [], []);
      LoopBegins(s0, c, plans);
      s := s0;
      var n := 0;
      while mq.unacked + mq.ready != []
        invariant InLoop(p, s0, s, c, plans, w0, all) && n == |p.passes|
        decreases if n < |plans| then |plans| - n else 0, |mq.unacked + mq.ready|
      {
        var passed;
        passed, s, p := Advance(PlanAt(plans, n), p, s0, s, c, plans, w0, all);
        if passed {
          n := n + 1;
        }
      }
      LoopEnds(p, s0, s, c, plans, w0, all);
      runs, passes := p.runs + [p.run], p.passes;
    }

    /** One well-formed message: `processFunc`, then Ack, or Nack with requeue. */
    method OneTurn(o: PassOutcomes, ghost s0: State, ghost c: nat) returns (ghost s: State, ghost es: seq<Event>)
      requires mq.unacked != [] && mq.unacked[0].Json? && ':' !in mq.unacked[0].m.user.text
      requires Holds(s0) && InPass(s0, c, Idle, Parsed(mq.unacked))
      modifies pg, redis, mq
      ensures Holds(s) && s == Run(s0, es) && ConsumerRun(es, c, TurnCalls(o))
      ensures InPass(s, c, Idle, Parsed(mq.unacked))
      ensures mq.unacked == old(mq.unacked)[1..]
      ensures
        var m := old(mq.unacked)[0].m;
        && mq.ready == (if Succeeds(m, o) then old(mq.ready) else [Json(m)] + old(mq.ready))
        && View() == AfterPass(old(View()), clock, m, o).(queue := mq.ready)
    {
      hide Next, Represents, ConsumerRun, Parsed, PassCalls, Written, Moved;
      var m := mq.unacked[0].m;
      HeadParsed(mq.unacked);
      var err;
      err, s, es := ProcessTransaction(m, o, s0, c);
      ConsumerRunConcat([], es, c, PassCalls(o), TurnCalls(o));
      assert [] + es == es;
      if err {
        es := ExtendPass(s0, es, c, TurnCalls(o), Nack);
        s := Return(m, s, c);
      } else {
        es := ExtendPass(s0, es, c, TurnCalls(o), Ack);
        s := Acknowledge(m, s, c);
      }
    }

    method Receive(ghost s: State, ghost c: nat) returns (ghost s': State)
      requires Holds(s) && InPass(s, c, Idle, Parsed(mq.unacked)) && mq.ready != []
      requires mq.unacked == [] || cfg.prefetch == 0 || |mq.unacked| < cfg.prefetch
      modifies mq
      ensures mq.unacked == old(mq.unacked) + [old(mq.ready)[0]] && mq.ready == old(mq.ready)[1..]
      ensures s' == if old(mq.ready)[0].Json? then Next(s, OnConsumer(c, Deliver)) else s
      ensures Holds(s') && InPass(s', c, Idle, Parsed(mq.unacked))
    {
      hide Represents, Parsed;
      ghost var body, unacked := mq.ready[0], mq.unacked;
      HeadParsed(mq.ready);
      ParsedConcat(unacked, [body]);
      ParsedOne(body);
      ParsedShorter(unacked);
      mq.Deliver();
      s' := if body.Json? then Next(s, OnConsumer(c, Deliver)) else s;
    }

    method Discard(ghost s: State, ghost c: nat) returns (ghost s': State)
      requires Holds(s) && InPass(s, c, Idle, Parsed(mq.unacked)) && mq.unacked != [] && mq.unacked[0].Malformed?
      modifies mq
      ensures mq.unacked == old(mq.unacked)[1..] && mq.ready == old(mq.ready)
      ensures s' == s && Holds(s') && InPass(s', c, Idle, Parsed(mq.unacked))
    {
      hide Represents, Parsed;
      HeadParsed(mq.unacked);
      mq.Settle();
      s' := s;
    }

    method Return(m: Message, ghost s: State, ghost c: nat) returns (ghost s': State)
      requires mq.unacked != [] && mq.unacked[0] == Json(m)
      requires Holds(s) && InPass(s, c, ToNack(m), Parsed(mq.unacked))
      modifies mq
      ensures mq.unacked == old(mq.unacked)[1..] && mq.ready == [old(mq.unacked)[0]] + old(mq.ready)
      ensures s' == Next(s, OnConsumer(c, Nack)) && Holds(s') && InPass(s', c, Idle, Parsed(mq.unacked))
    {
      hide Represents, Parsed;
      HeadParsed(mq.unacked);
      ParsedConcat([Json(m)], mq.ready);
      ParsedOne(Json(m));
      mq.Requeue();
      s' := Next(s, OnConsumer(c, Nack));
    }

    method Acknowledge(m: Message, ghost s: State, ghost c: nat) returns (ghost s': State)
      requires mq.unacked != [] && mq.unacked[0] == Json(m)
      requires Holds(s) && InPass(s, c, ToAck(m), Parsed(mq.unacked))
      modifies mq
      ensures mq.unacked == old(mq.unacked)[1..] && mq.ready == old(mq.ready)
      ensures s' == Next(s, OnConsumer(c, Ack)) && Holds(s') && InPass(s', c, Idle, Parsed(mq.unacked))
    {
      hide Represents, Parsed;
      HeadParsed(mq.unacked);
      mq.Settle();
      s' := Next(s, OnConsumer(c, Ack));
    }

    // ---- The synchronous path ----------------------------------------------

    method CommitSync(tx: Tx, req: Request, t: TxnId, reference: string, outcome: Outcome, ghost s: State, ghost v: nat)
      returns (err: bool, ghost s': State)
      requires Holds(s) && v < |s.syncs| && Bound(req) && tx.pg == pg && tx.txn == t && tx.user == req.user
      requires tx.snap == TakeSnapshot(s.db, t, req.user, clock) && t !in s.db.txns && req.user in s.db.users
      requires s.syncs[v] == Sync(req, SyncCommit(tx.snap)) && tx.wroteRow && tx.wroteAccount
      requires tx.row == Lookup(SyncTxns(pg.txns, t, req, reference, clock), t)
      requires tx.account == Lookup(Moved(pg.users, req.user, req.kind, req.amount), req.user)
      modifies pg
      ensures err <==> !outcome.Done?
      ensures s' == Next(s, OnSync(v, DoSyncCommit(t, reference, outcome))) && Holds(s')
      ensures |s'.syncs| == |s.syncs| && s'.syncs[v] == Sync(req, if err then SyncFailed else SyncDone(t))
      ensures pg.txns == if outcome == NotDone then old(pg.txns) else SyncTxns(old(pg.txns), t, req, reference, clock)
      ensures pg.users == if outcome == NotDone then old(pg.users)
                          else Moved(old(pg.users), req.user, req.kind, req.amount)
    {
      hide Represents;
      err := tx.Commit(outcome);
      assert pg.Value() == Db(pg.users, pg.txns);
      s' := Next(s, OnSync(v, DoSyncCommit(t, reference, outcome)));
    }

    /** The serializable transaction: insert the completed row, move the balance, commit. */
    method InsertAndPay(req: Request, t: TxnId, reference: string, o: SyncOutcomes,
                        ghost s0: State, ghost s1: State, ghost es1: seq<Event>, ghost v: nat)
      returns (done: bool, ghost s: State, ghost es: seq<Event>)
      requires Holds(s1) && s1 == Run(s0, es1) && SyncRun(es1, req, v, SyncCalls(o, t, reference))
      requires v < |s1.syncs|
      requires s1.syncs[v] == Sync(req, SyncInsert(Snapshot(None, Lookup(s1.db.users, req.user), clock)))
      requires Acceptable(req) && t !in pg.txns && req.user in pg.users
      modifies pg
      ensures Holds(s) && s == Run(s0, es) && SyncRun(es, req, v, SyncCalls(o, t, reference))
      ensures |s.syncs| == |s1.syncs| && (done ==> s.syncs[v] == Sync(req, SyncDone(t)))
      ensures done <==> o.insert && o.balance && o.commit.Done?
      ensures View() == if o.insert && o.balance && o.commit != NotDone
                        then old(View()).(txns := SyncTxns(old(pg.txns), t, req, reference, clock),
                                          users := Moved(old(pg.users), req.user, req.kind, req.amount))
                        else old(View())
    {
      hide Next, Represents, SyncRun, Delta;
      ghost var calls := SyncCalls(o, t, reference);
      es, s := es1, s1;
      var tx := new Tx(pg, t, req.user, clock);

      SyncLocalStep(s, v, req, DoSyncInsert(o.insert));
      es := ExtendSync(s0, es, req, v, calls, DoSyncInsert(o.insert));
      s := Run(s0, es);
      if !o.insert {
        return false, s, es;
      }
      tx.InsertCompleted(req, reference);

      SyncLocalStep(s, v, req, DoSyncBalance(o.balance));
      es := ExtendSync(s0, es, req, v, calls, DoSyncBalance(o.balance));
      s := Run(s0, es);
      if !o.balance {
        return false, s, es;
      }
      tx.AddToBalance(match req.kind case Credit => req.amount case _ => -req.amount);

      var err;
      err, s := CommitSync(tx, req, t, reference, o.commit, s, v);
      es := ExtendSync(s0, es, req, v, calls, DoSyncCommit(t, reference, o.commit));
      return !err, s, es;
    }

    /** `CreateTransactionV0`: one serializable transaction inserts the completed row and moves the balance. */
    method CreateTransactionV0(req: Request, t: TxnId, reference: string, o: SyncOutcomes, ghost s0: State)
      returns (done: bool, ghost s: State, ghost es: seq<Event>)
      requires Holds(s0) && t !in pg.txns
      modifies pg
      ensures Holds(s) && s == Run(s0, es) && SyncRun(es, req, |s0.syncs|, SyncCalls(o, t, reference))
      ensures |s.syncs| == |s0.syncs| + 1 && (done ==> s.syncs[|s0.syncs|] == Sync(req, SyncDone(t)))
      ensures done <==> SyncReachesCommit(old(View()), req, o) && o.commit == Done
      ensures View() == AfterSync(old(View()), clock, req, t, reference, o)
      ensures
        (&& o == SyncOutcomes(true, true, true, true, Done)
         && (req.kind == Credit || req.kind == Debit || req.kind == Transfer) && req.amount > 0
         && req.user in old(pg.users) && old(pg.users)[req.user].active)
        ==> s.syncs[|s0.syncs|].pc == SyncDone(t)
    {
      hide Next, Represents, SyncRun, Delta, Moved;
      ghost var v, calls := |s0.syncs|, SyncCalls(o, t, reference);
      es, s := [PostSync(req)], Next(s0, PostSync(req));
      SyncArrives(s0, req);
      SyncRunStarts(req, v, calls);
      RunFirst(s0, PostSync(req));
      if !Bound(req) {
        return false, s, es;
      }
      var valid := pg.UserExists(req.user, o.user);
      SyncLocalStep(s, v, req, DoSyncCheck(o.user));
      es := ExtendSync(s0, es, req, v, calls, DoSyncCheck(o.user));
      s := Run(s0, es);
      if !valid {
        return false, s, es;
      }
      SyncLocalStep(s, v, req, DoSyncBegin(o.begin));
      es := ExtendSync(s0, es, req, v, calls, DoSyncBegin(o.begin));
      s := Run(s0, es);
      if !o.begin {
        return false, s, es;
      }
      done, s, es := InsertAndPay(req, t, reference, o, s0, s, es, v);
    }

    // ---- Cache-aside reads -------------------------------------------------

    method Wait(d: Time, ghost s: State) returns (ghost s': State)
      requires Holds(s)
      modifies `clock
      ensures clock == old(clock) + d
      ensures s' == Next(s, Tick(d)) && Holds(s') && s'.readers == s.readers && s'.db == s.db
    {
      hide Represents;
      clock := clock + d;
      s' := Next(s, Tick(d));
    }

    /** `GetUserBalance` and `GetTransaction`: the cache, else the database and then the cache. */
    method GetCached(key: Key, o: ReadOutcomes, ghost s0: State)
      returns (answer: Option<CacheValue>, ghost s: State, ghost es: seq<Event>)
      requires Holds(s0) && ColonFree(key) && !key.IdempotencyKey?
      modifies redis, `clock
      ensures Holds(s) && s == Run(s0, es)
      ensures ReaderRun(es, key, |s0.readers|, {DoProbe(o.probe), DoQuery(o.query), DoStore(o.store)})
      ensures |s.readers| == |s0.readers| + 1
      ensures
        var pc := s.readers[|s0.readers|].pc;
        match answer
        case Some(val) => pc == if HitsCache(old(View()), old(clock), key, o.probe) then Hit(val) else Miss(val)
        case None => pc == if o.query then NotFound else ReadFailed
      ensures answer == ReadAnswer(old(View()), old(clock), key, o)
      ensures View() == AfterRead(old(View()), old(clock), cfg.ttl, key, o)
      ensures clock == old(clock) + TimeTaken(old(View()), old(clock), key, o)
      ensures s.db == s0.db
    {
      hide Next, Represents, Uncached, CacheString;
      ghost var r := |s0.readers|;
      var start := clock;
      es, s := [GetKey(key)], Next(s0, GetKey(key));
      RunFirst(s0, GetKey(key));
      ReaderArrives(s0, key);

      var hit;
      hit, s := ProbeKey(key, o.probe, s, r);
      es := Extend(s0, es, OnReader(r, DoProbe(o.probe)));
      if hit.Some? {
        return hit, s, es;
      }
      s := Wait(o.queryWait, s);
      es := Extend(s0, es, Tick(o.queryWait));
      var found;
      found, s := QueryRow(key, start, o.query, s, r);
      es := Extend(s0, es, OnReader(r, DoQuery(o.query)));
      if found.None? {
        return None, s, es;
      }
      s := Wait(o.storeWait, s);
      es := Extend(s0, es, Tick(o.storeWait));
      s := StoreRow(key, start, found.value, o.store, s, r);
      es := Extend(s0, es, OnReader(r, DoStore(o.store)));
      return found, s, es;
    }

    method ProbeKey(key: Key, ok: bool, ghost s: State, ghost r: nat) returns (hit: Option<CacheValue>, ghost s': State)
      requires Holds(s) && ColonFree(key) && r < |s.readers| && s.readers[r] == Reader(key, clock, Probe)
      ensures hit == if HitsCache(View(), clock, key, ok) then Some(redis.store[CacheString(key)].val) else None
      ensures s' == Next(s, OnReader(r, DoProbe(ok))) && Holds(s') && |s'.readers| == |s.readers| && s'.db == s.db
      ensures s'.readers[r] == Reader(key, clock, if hit.Some? then Hit(hit.value) else Query)
    {
      hide Represents, KeyString, CacheGet, CacheString;
      StringOf(key);
      hit := redis.Get(KeyString(key), clock, ok);
      GetRepresented(redis.store, s.cache, key, clock, ok);
      s' := Next(s, OnReader(r, DoProbe(ok)));
    }

    method QueryRow(key: Key, start: Time, ok: bool, ghost s: State, ghost r: nat)
      returns (found: Option<CacheValue>, ghost s': State)
      requires Holds(s) && r < |s.readers| && s.readers[r] == Reader(key, start, Query)
      ensures found == if ok then Uncached(pg.users, pg.txns, key) else None
      ensures s' == Next(s, OnReader(r, DoQuery(ok))) && Holds(s') && |s'.readers| == |s.readers| && s'.db == s.db
      ensures s'.readers[r] == Reader(key, start,
                if found.Some? then ReaderPc.Store(found.value, s.hist.step, clock)
                else if ok then NotFound else ReadFailed)
    {
      hide Represents;
      found := pg.Select(key);
      if !ok {
        found := None;
      }
      s' := Next(s, OnReader(r, DoQuery(ok)));
    }

    /** The client refuses a Set whose request is past its deadline. */
    method StoreRow(key: Key, start: Time, val: CacheValue, ok: bool, ghost s: State, ghost r: nat)
      returns (ghost s': State)
      requires Holds(s) && ColonFree(key) && r < |s.readers| && s.readers[r].pc.Store?
      requires
        var pc := s.readers[r].pc;
        s.readers[r] == Reader(key, start, ReaderPc.Store(val, pc.readStep, pc.readTime))
      modifies redis
      ensures redis.store == if ok && clock <= start + 5_000_000_000
                             then old(redis.store)[CacheString(key) := Item(val, clock + cfg.ttl)] else old(redis.store)
      ensures s' == Next(s, OnReader(r, DoStore(ok))) && Holds(s') && |s'.readers| == |s.readers| && s'.db == s.db
      ensures s'.readers[r] == Reader(key, start, Miss(val))
    {
      hide Represents, KeyString, CacheString;
      StringOf(key);
      ghost var pc := s.readers[r].pc;
      ghost var e := Entry(val, s.clock + cfg.ttl, pc.readStep, pc.readTime, s.hist.step);
      SetRepresented(redis.store, s.cache, key, e);
      redis.Set(KeyString(key), val, cfg.ttl, clock, ok && clock <= start + REQUEST_DEADLINE);
      s' := Next(s, OnReader(r, DoStore(ok)));
    }
  }
}

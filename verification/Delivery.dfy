/** Conservation of work: where each asynchronous row's message is, in every reachable state. */
module Delivery {
  import opened Domain
  import opened Stores
  import opened Protocol
  import opened Frames
  import opened Traces
  import opened References

  /** The places an asynchronous row's message can be: still with its handler, at a position of the queue,
      at a position of a consumer's unacked messages, acked, or never to be enqueued. */
  datatype Place = InHandler(h: nat) | InQueue(i: nat) | Unacked(c: nat, j: nat) | IsAcked | IsLost

  ghost predicate At(s: State, p: Place, t: TxnId) {
    match p
    case InHandler(h) => h < |s.handlers| && InHand(s.handlers[h].pc) == Some(t)
    case InQueue(i) => i < |s.ready| && s.ready[i].txn == t
    case Unacked(c, j) =>
      && c < |s.consumers| && s.consumers[c].up
      && j < |s.consumers[c].inbox| && s.consumers[c].inbox[j].txn == t
    case IsAcked => t in s.hist.acked
    case IsLost => t in s.hist.lost
  }

  /** The rows inserted by `CreateTransaction`. */
  ghost function AsyncRows(accepted: seq<Accepted>): set<TxnId> {
    set i | 0 <= i < |accepted| && !accepted[i].sync :: accepted[i].txn
  }

  lemma AsyncRowsSnoc(accepted: seq<Accepted>, a: Accepted)
    ensures AsyncRows(accepted + [a]) == AsyncRows(accepted) + if a.sync then {} else {a.txn}
  {
    var longer := accepted + [a];
    forall t | t in AsyncRows(accepted) + (if a.sync then {} else {a.txn}) ensures t in AsyncRows(longer) {
      if t in AsyncRows(accepted) {
        var i :| 0 <= i < |accepted| && !accepted[i].sync && accepted[i].txn == t;
        assert longer[i] == accepted[i];
      } else {
        assert longer[|accepted|] == a;
      }
    }
  }

  /** No row's message is in two places. */
  ghost predicate OnePlace(s: State) {
    forall p, q, t :: At(s, p, t) && At(s, q, t) ==> p == q
  }

  /** Exactly the asynchronous rows have a place. */
  ghost predicate SomePlace(s: State) {
    forall t :: t in AsyncRows(s.hist.accepted) <==> exists p :: At(s, p, t)
  }

  /** A consumer works on the first of the messages it holds. */
  ghost predicate Aligned(k: Consumer) {
    InProgress(k.pc).Some? ==> k.inbox != [] && k.inbox[0] == InProgress(k.pc).value
  }

  ghost predicate WorkInv(s: State) {
    && OnePlace(s)
    && SomePlace(s)
    && (forall c :: 0 <= c < |s.consumers| ==> Aligned(s.consumers[c]))
  }

  // ---- Steps that move a message -------------------------------------------

  /** `back` sends each place of the new state to the place its message came from. */
  ghost predicate MovesBack(s: State, s': State, back: Place -> Place) {
    && (forall p, t :: At(s', p, t) ==> At(s, back(p), t))
    && (forall p, q, t :: At(s', p, t) && At(s', q, t) && back(p) == back(q) ==> p == q)
  }

  ghost predicate MovesOn(s: State, s': State, on: Place -> Place) {
    forall p, t :: At(s, p, t) ==> At(s', on(p), t)
  }

  /** A step that moves messages around, creating and losing none, keeps every row in exactly one place. */
  lemma MovingKeepsPlaces(s: State, s': State, back: Place -> Place, on: Place -> Place)
    requires OnePlace(s) && SomePlace(s) && MovesBack(s, s', back) && MovesOn(s, s', on)
    requires s'.hist.accepted == s.hist.accepted
    ensures OnePlace(s') && SomePlace(s')
  {}

  lemma DeliverMoves(s: State, c: nat)
    requires c < |s.consumers| && CanDeliver(s, c) && OnePlace(s) && SomePlace(s)
    ensures OnePlace(ConsumerDeliver(s, c)) && SomePlace(ConsumerDeliver(s, c))
  {
    var n := |s.consumers[c].inbox|;
    var back := (p: Place) =>
      if p.InQueue? then InQueue(p.i + 1) else if p == Unacked(c, n) then InQueue(0) else p;
    var on := (p: Place) =>
      if p == InQueue(0) then Unacked(c, n) else if p.InQueue? then InQueue(p.i - 1) else p;
    MovingKeepsPlaces(s, ConsumerDeliver(s, c), back, on);
  }

  /** The consumer's whole inbox goes back to the head of the queue. */
  lemma RequeueMoves(s: State, c: nat, k: Consumer)
    requires c < |s.consumers| && s.consumers[c].up && Unanswered(k) == [] && OnePlace(s) && SomePlace(s)
    ensures
      var s' := SetConsumer(s.(ready := s.consumers[c].inbox + s.ready), c, k);
      OnePlace(s') && SomePlace(s')
  {
    var n := |s.consumers[c].inbox|;
    var back := (p: Place) =>
      if p.InQueue? then if p.i < n then Unacked(c, p.i) else InQueue(p.i - n) else p;
    var on := (p: Place) =>
      if p.InQueue? then InQueue(p.i + n) else if p.Unacked? && p.c == c then InQueue(p.j) else p;
    MovingKeepsPlaces(s, SetConsumer(s.(ready := s.consumers[c].inbox + s.ready), c, k), back, on);
  }

  /** The message in hand goes from the head of the consumer's unacked messages to the head of the queue. */
  ghost predicate HandsBack(s: State, s': State, c: nat) {
    && c < |s.consumers| == |s'.consumers| && s.consumers[c].up && s'.consumers[c].up
    && s'.handlers == s.handlers && s'.hist == s.hist
    && (forall d :: 0 <= d < |s.consumers| && d != c ==> s'.consumers[d] == s.consumers[d])
    && |s'.consumers[c].inbox| == |s.consumers[c].inbox| - 1 && |s'.ready| == |s.ready| + 1
    && s'.ready[0] == s.consumers[c].inbox[0]
    && (forall i :: 0 <= i < |s.ready| ==> s'.ready[i + 1] == s.ready[i])
    && (forall j :: 0 <= j < |s'.consumers[c].inbox| ==> s'.consumers[c].inbox[j] == s.consumers[c].inbox[j + 1])
  }

  lemma HandsBackMoves(s: State, s': State, c: nat)
    requires HandsBack(s, s', c) && OnePlace(s) && SomePlace(s)
    ensures OnePlace(s') && SomePlace(s')
  {
    hide OnePlace, SomePlace;
    var back := (p: Place) =>
      if p == InQueue(0) then Unacked(c, 0)
      else if p.InQueue? then InQueue(p.i - 1)
      else if p.Unacked? && p.c == c then Unacked(c, p.j + 1) else p;
    var on := (p: Place) =>
      if p == Unacked(c, 0) then InQueue(0)
      else if p.InQueue? then InQueue(p.i + 1)
      else if p.Unacked? && p.c == c then Unacked(c, p.j - 1) else p;
    assert forall i :: 0 < i < |s'.ready| ==> s'.ready[i] == s.ready[(i - 1)];
    MovingKeepsPlaces(s, s', back, on);
  }

  lemma NackMoves(s: State, c: nat)
    requires c < |s.consumers| && s.consumers[c].pc.ToNack? && Aligned(s.consumers[c]) && s.consumers[c].up
    requires OnePlace(s) && SomePlace(s)
    ensures OnePlace(ConsumerNack(s, c)) && SomePlace(ConsumerNack(s, c))
  {
    hide OnePlace, SomePlace;
    HandsBackMoves(s, ConsumerNack(s, c), c);
  }

  lemma AckMoves(s: State, c: nat)
    requires c < |s.consumers| && s.consumers[c].pc.ToAck? && Aligned(s.consumers[c]) && s.consumers[c].up
    requires OnePlace(s) && SomePlace(s)
    ensures OnePlace(ConsumerAck(s, c)) && SomePlace(ConsumerAck(s, c))
  {
    var s' := ConsumerAck(s, c);
    var m := s.consumers[c].pc.m;
    assert At(s, Unacked(c, 0), m.txn);
    var back := (p: Place, t: TxnId) =>
      if p == IsAcked && t == m.txn then Unacked(c, 0)
      else if p.Unacked? && p.c == c then Unacked(c, p.j + 1) else p;
    forall p, q, t | At(s', p, t) && At(s', q, t) ensures p == q {
      assert At(s, back(p, t), t) && At(s, back(q, t), t);
    }
    forall t ensures t in AsyncRows(s'.hist.accepted) <==> exists p :: At(s', p, t) {
      if p :| At(s', p, t) {
        assert At(s, back(p, t), t);
      }
      if t in AsyncRows(s'.hist.accepted) {
        var p :| At(s, p, t);
        var q :=
          if p == Unacked(c, 0) then IsAcked else if p.Unacked? && p.c == c then Unacked(c, p.j - 1) else p;
        assert At(s', q, t);
      }
    }
  }

  /** The handler lets go of its row: to the queue's tail, or for good. */
  lemma ReleaseMoves(s: State, s': State, h: nat, t: TxnId, to: Place)
    requires h < |s.handlers| && InHand(s.handlers[h].pc) == Some(t) && OnePlace(s) && SomePlace(s)
    requires |s'.handlers| == |s.handlers| && s'.handlers == s.handlers[h := s'.handlers[h]]
    requires InHand(s'.handlers[h].pc).None?
    requires s'.consumers == s.consumers && s'.hist.acked == s.hist.acked && s'.hist.accepted == s.hist.accepted
    requires
      || (to == IsLost && s'.ready == s.ready && s'.hist.lost == s.hist.lost + {t})
      || (to == InQueue(|s.ready|) && |s'.ready| == |s.ready| + 1 && s'.ready[..|s.ready|] == s.ready
          && s'.ready[|s.ready|].txn == t && s'.hist.lost == s.hist.lost)
    ensures OnePlace(s') && SomePlace(s')
  {
    assert At(s, InHandler(h), t);
    forall i | 0 <= i < |s.ready| ensures s'.ready[i] == s.ready[i] {
      assert s'.ready[..|s.ready|][i] == s.ready[i];
    }
    var back := (p: Place, u: TxnId) => if p == to && u == t then InHandler(h) else p;
    forall p, q, u | At(s', p, u) && At(s', q, u) ensures p == q {
      assert At(s, back(p, u), u) && At(s, back(q, u), u);
    }
    forall u ensures u in AsyncRows(s'.hist.accepted) <==> exists p :: At(s', p, u) {
      if p :| At(s', p, u) {
        assert At(s, back(p, u), u);
      }
      if u in AsyncRows(s'.hist.accepted) {
        var p :| At(s, p, u);
        assert At(s', if p == InHandler(h) then to else p, u);
      }
    }
  }

  /** A fresh row starts with its handler, or lost to it. */
  lemma InsertPlaces(s: State, h: nat, t: TxnId, reference: string, outcome: Outcome)
    requires h < |s.handlers| && s.handlers[h].pc.Insert? && OnePlace(s) && SomePlace(s)
    requires forall i :: 0 <= i < |s.hist.accepted| ==> s.hist.accepted[i].txn in s.db.txns
    ensures
      var s' := HandlerInsert(s, h, t, reference, outcome);
      OnePlace(s') && SomePlace(s')
  {
    var s' := HandlerInsert(s, h, t, reference, outcome);
    if s'.hist.accepted == s.hist.accepted {
      MovingKeepsPlaces(s, s', p => p, p => p);
    } else {
      assert t !in AsyncRows(s.hist.accepted);
      AsyncRowsSnoc(s.hist.accepted, s'.hist.accepted[|s.hist.accepted|]);
      var to := if outcome.Ambiguous? then IsLost else InHandler(h);
      assert At(s', to, t);
      forall p, u | At(s', p, u) ensures (u == t && p == to) || (u != t && At(s, p, u)) {
        if u == t && p != to {
          assert At(s, p, u);
        }
      }
      forall u ensures u in AsyncRows(s'.hist.accepted) <==> exists p :: At(s', p, u) {
        if u in AsyncRows(s.hist.accepted) {
          var p :| At(s, p, u);
          assert At(s', p, u);
        }
      }
    }
  }

  // ---- Every step ----------------------------------------------------------

  ghost predicate AcceptedExist(s: State) {
    forall i :: 0 <= i < |s.hist.accepted| ==> s.hist.accepted[i].txn in s.db.txns
  }

  lemma AcceptedRowsExist(s: State)
    requires ReferenceInv(s)
    ensures AcceptedExist(s)
  {}

  lemma StillPlaces(s: State, s': State)
    requires OnePlace(s) && SomePlace(s)
    requires forall p, t :: At(s', p, t) <==> At(s, p, t)
    requires AsyncRows(s'.hist.accepted) == AsyncRows(s.hist.accepted)
    ensures OnePlace(s') && SomePlace(s')
  {}

  lemma HandlerWork(s: State, h: nat, e: HandlerEvent)
    requires WorkInv(s) && h < |s.handlers| && AcceptedExist(s)
    ensures WorkInv(StepHandler(s, h, e))
  {
    hide OnePlace, SomePlace;
    var s' := StepHandler(s, h, e);
    HandlerFrame(s, h, e);
    var pc := s.handlers[h].pc;
    match e
    case DoInsert(t, reference, outcome) =>
      if pc.Insert? { InsertPlaces(s, h, t, reference, outcome); }
    case DoPublish(sending) =>
      if pc.Publish? {
        ReleaseMoves(s, s', h, pc.t, if Enqueues(s, sending) then InQueue(|s.ready|) else IsLost);
      }
    case Die =>
      if InHand(pc).Some? { ReleaseMoves(s, s', h, InHand(pc).value, IsLost); } else { StillPlaces(s, s'); }
    case _ => StillPlaces(s, s');
  }

  /** A consumer's own step keeps it on the first of its unacked messages. */
  lemma StaysAligned(s: State, c: nat, e: ConsumerEvent)
    requires c < |s.consumers| && Aligned(s.consumers[c])
    ensures Aligned(StepConsumer(s, c, e).consumers[c])
  {}

  /** The step takes a message from one place to another. */
  predicate MovesMessage(s: State, c: nat, e: ConsumerEvent)
    requires c < |s.consumers|
  {
    var k := s.consumers[c];
    match e
    case Deliver => CanDeliver(s, c)
    case Crash => k.up
    case Disconnect => k.up
    case Ack => k.pc.ToAck? && k.up
    case Nack => k.pc.ToNack? && k.up
    case _ => false
  }

  lemma UnmovedPlaces(s: State, c: nat, e: ConsumerEvent)
    requires c < |s.consumers| && !MovesMessage(s, c, e) && OnePlace(s) && SomePlace(s)
    ensures OnePlace(StepConsumer(s, c, e)) && SomePlace(StepConsumer(s, c, e))
  {
    hide OnePlace, SomePlace, MarkProcessing, InstallPass, Validates, Delta, Listed, CacheDelete;
    var s' := StepConsumer(s, c, e);
    ConsumerFrame(s, c, e);
    assert s'.ready == s.ready && s'.hist.acked == s.hist.acked;
    assert Unanswered(s'.consumers[c]) == Unanswered(s.consumers[c]);
    StillPlaces(s, s');
  }

  lemma ConsumerWork(s: State, c: nat, e: ConsumerEvent)
    requires WorkInv(s) && c < |s.consumers|
    ensures WorkInv(StepConsumer(s, c, e))
  {
    hide OnePlace, SomePlace, Aligned;
    var s' := StepConsumer(s, c, e);
    ConsumerFrame(s, c, e);
    var k := s.consumers[c];
    StaysAligned(s, c, e);
    if MovesMessage(s, c, e) {
      match e
      case Deliver => DeliverMoves(s, c);
      case Crash => RequeueMoves(s, c, Consumer(Idle, [], true));
      case Disconnect => RequeueMoves(s, c, s'.consumers[c]);
      case Ack => AckMoves(s, c);
      case Nack => NackMoves(s, c);
    } else {
      UnmovedPlaces(s, c, e);
    }
  }

  lemma SyncWork(s: State, v: nat, e: SyncEvent)
    requires WorkInv(s) && v < |s.syncs|
    ensures WorkInv(StepSync(s, v, e))
  {
    hide StepSync, OnePlace, SomePlace;
    var s' := StepSync(s, v, e);
    SyncFrame(s, v, e);
    if s'.hist.accepted != s.hist.accepted {
      AsyncRowsSnoc(s.hist.accepted, s'.hist.accepted[|s.hist.accepted|]);
    }
    StillPlaces(s, s');
  }

  lemma WorkKept(s: State, e: Event)
    requires WorkInv(s) && AcceptedExist(s)
    ensures WorkInv(Next(s, e))
  {
    hide StepHandler, StepConsumer, StepSync, StepReader;
    hide OnePlace, SomePlace;
    var s' := Step(s, e);
    match e {
      case OnHandler(h, he) => if h < |s.handlers| { HandlerWork(s, h, he); }
      case OnConsumer(c, ce) => if c < |s.consumers| { ConsumerWork(s, c, ce); }
      case OnSync(v, ve) => if v < |s.syncs| { SyncWork(s, v, ve); }
      case OnReader(r, re) => if r < |s.readers| { ReaderFrame(s, r, re); } StillPlaces(s, s');
      case _ => StillPlaces(s, s');
    }
    StillPlaces(s', Next(s, e));
  }

  lemma {:induction false} WorkHolds(tr: seq<State>, es: seq<Event>, i: nat)
    requires Behavior(tr, es) && i <= |es|
    ensures WorkInv(tr[i])
    decreases i
  {
    hide Next;
    if i > 0 {
      WorkHolds(tr, es, i - 1);
      ReferencesHold(tr, es, i - 1);
      AcceptedRowsExist(tr[i - 1]);
      WorkKept(tr[i - 1], es[i - 1]);
      assert tr[i - 1 + 1] == Next(tr[i - 1], es[i - 1]);
    } else {
      assert AsyncRows(tr[0].hist.accepted) == {};
    }
  }

  /** In every reachable state, crashes and lost connections included, every row inserted by the asynchronous path
      is in exactly one place, and nothing else is in any. */
  lemma WorkIsConserved(tr: seq<State>, es: seq<Event>, i: nat, t: TxnId)
    requires Behavior(tr, es) && i <= |es|
    ensures t in AsyncRows(tr[i].hist.accepted) <==> exists p :: At(tr[i], p, t)
    ensures forall p, q :: At(tr[i], p, t) && At(tr[i], q, t) ==> p == q
  {
    WorkHolds(tr, es, i);
  }

  // ---- Prefetch ------------------------------------------------------------

  /** The broker counts no more messages unacked than the prefetch limit. */
  ghost predicate WithinPrefetch(s: State) {
    s.cfg.prefetch > 0 ==>
      forall c :: 0 <= c < |s.consumers| && s.consumers[c].up ==> |s.consumers[c].inbox| <= s.cfg.prefetch
  }

  lemma OwnPrefetch(s: State, c: nat, e: ConsumerEvent)
    requires c < |s.consumers| && WithinPrefetch(s)
    ensures
      var k' := StepConsumer(s, c, e).consumers[c];
      s.cfg.prefetch > 0 && k'.up ==> |k'.inbox| <= s.cfg.prefetch
  {
    hide MarkProcessing, InstallPass, Validates, Delta, CacheDelete, TakeSnapshot, Listed;
  }

  lemma PrefetchKept(s: State, e: Event)
    requires WithinPrefetch(s)
    ensures WithinPrefetch(Next(s, e))
  {
    hide StepHandler, StepConsumer, StepSync, StepReader;
    match e
    case OnHandler(h, he) => if h < |s.handlers| { HandlerFrame(s, h, he); }
    case OnConsumer(c, ce) => if c < |s.consumers| { ConsumerFrame(s, c, ce); OwnPrefetch(s, c, ce); }
    case OnSync(v, ve) => if v < |s.syncs| { SyncFrame(s, v, ve); }
    case OnReader(r, re) => if r < |s.readers| { ReaderFrame(s, r, re); }
    case _ =>
  }

  /** No connected consumer ever holds more messages than it may prefetch. */
  lemma PrefetchHolds(tr: seq<State>, es: seq<Event>, i: nat, c: nat)
    requires Behavior(tr, es) && i <= |es| && c < |tr[i].consumers| && tr[i].consumers[c].up && tr[0].cfg.prefetch > 0
    ensures |tr[i].consumers[c].inbox| <= tr[0].cfg.prefetch
  {
    PrefetchAlways(tr, es, i);
    TimeAdvances(tr, es, 0, i);
  }

  lemma {:induction false} PrefetchAlways(tr: seq<State>, es: seq<Event>, i: nat)
    requires Behavior(tr, es) && i <= |es|
    ensures WithinPrefetch(tr[i])
    decreases i
  {
    hide Next;
    if i > 0 {
      PrefetchAlways(tr, es, i - 1);
      PrefetchKept(tr[i - 1], es[i - 1]);
      assert tr[i - 1 + 1] == Next(tr[i - 1], es[i - 1]);
    }
  }

  // ---- A lost channel ------------------------------------------------------

  /** The consumer knows that its channel is gone: it holds at most the message of the pass in progress. */
  predicate Stopped(k: Consumer) {
    !k.up && |k.inbox| <= 1 && (k.pc.Idle? ==> k.inbox == [])
  }

  lemma OwnStop(s: State, c: nat, e: ConsumerEvent)
    requires c < |s.consumers| && !e.Crash?
    requires Stopped(s.consumers[c]) || (e.Notice? && !s.consumers[c].up)
    ensures Stopped(StepConsumer(s, c, e).consumers[c])
    ensures e.Claim? ==> StepConsumer(s, c, e) == s
  {
    hide MarkProcessing, InstallPass, Validates, Delta, CacheDelete, TakeSnapshot, Listed;
  }

  lemma StaysStopped(s: State, e: Event, c: nat)
    requires c < |s.consumers| && e != OnConsumer(c, Crash)
    requires Stopped(s.consumers[c]) || (e == OnConsumer(c, Notice) && !s.consumers[c].up)
    ensures c < |Next(s, e).consumers| && Stopped(Next(s, e).consumers[c])
    ensures e.OnConsumer? && e.c == c && e.ce.Claim? ==> Next(s, e).db == s.db
  {
    hide StepHandler, StepConsumer, StepSync, StepReader, Stopped;
    match e
    case OnHandler(h, he) => if h < |s.handlers| { HandlerFrame(s, h, he); }
    case OnConsumer(d, ce) =>
      if d < |s.consumers| {
        ConsumerFrame(s, d, ce);
        if d == c { OwnStop(s, c, ce); }
      }
    case OnSync(v, ve) => if v < |s.syncs| { SyncFrame(s, v, ve); }
    case OnReader(r, re) => if r < |s.readers| { ReaderFrame(s, r, re); }
    case _ =>
  }

  /** A consumer that has noticed the loss of its channel finishes the pass in progress and claims nothing more until it
      restarts. */
  lemma {:induction false} NoticedStops(tr: seq<State>, es: seq<Event>, i: nat, j: nat, c: nat)
    requires Execution(tr, es) && i < j <= |es| && c < |tr[i].consumers|
    requires es[i] == OnConsumer(c, Notice) && !tr[i].consumers[c].up
    requires forall n :: i < n <= j && n < |es| ==> es[n] != OnConsumer(c, Crash)
    ensures c < |tr[j].consumers| && Stopped(tr[j].consumers[c])
    ensures j < |es| && es[j].OnConsumer? && es[j].c == c && es[j].ce.Claim? ==> tr[j + 1].db == tr[j].db
    decreases j
  {
    hide Next, Stopped;
    if i + 1 < j { NoticedStops(tr, es, i, j - 1, c); }
    StaysStopped(tr[j - 1], es[j - 1], c);
    assert tr[j - 1 + 1] == Next(tr[j - 1], es[j - 1]);
    if j < |es| { StaysStopped(tr[j], es[j], c); }
  }
}

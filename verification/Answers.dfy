/** What clients are answered, in the terms of their requests. */
module Answers {
  import opened Domain
  import opened Protocol
  import opened Frames
  import opened Traces
  import opened ExactlyOnce
  import opened Staleness

  /** The `oneof=credit debit transfer` and `gt=0` bindings. */
  predicate Binds(req: Request) {
    (req.kind == Credit || req.kind == Debit || req.kind == Transfer) && req.amount > 0
  }

  /** A request is refused when it arrives, or never on that ground. */
  lemma HandlerKeepsRefusals(s: State, h: nat, e: HandlerEvent)
    requires h < |s.handlers|
    ensures
      var s' := StepHandler(s, h, e);
      h < |s'.handlers| && (s'.handlers[h].pc == Replied(BadRequest) <==> s.handlers[h].pc == Replied(BadRequest))
  {}

  lemma ArrivalsAreBound(s: State, e: Event, h: nat)
    requires h < |Next(s, e).handlers|
    ensures
      var k := Next(s, e).handlers[h];
      if h < |s.handlers| then
        k.req == s.handlers[h].req && (k.pc == Replied(BadRequest) <==> s.handlers[h].pc == Replied(BadRequest))
      else k.pc == Replied(BadRequest) <==> !Binds(k.req)
  {
    hide StepHandler, StepConsumer, StepSync, StepReader;
    match e
    case OnHandler(g, he) => if g < |s.handlers| { HandlerFrame(s, g, he); HandlerKeepsRefusals(s, g, he); }
    case OnConsumer(c, ce) => if c < |s.consumers| { ConsumerFrame(s, c, ce); }
    case OnSync(v, ve) => if v < |s.syncs| { SyncFrame(s, v, ve); }
    case OnReader(r, re) => if r < |s.readers| { ReaderFrame(s, r, re); }
    case _ =>
  }

  /** `CreateTransaction` answers "invalid request" if and only if the type is none of the three or the amount is not
      above zero. */
  lemma {:induction false} BadRequestIff(tr: seq<State>, es: seq<Event>, i: nat, h: nat)
    requires Behavior(tr, es) && i <= |es| && h < |tr[i].handlers|
    ensures
      var req := tr[i].handlers[h].req;
      tr[i].handlers[h].pc == Replied(BadRequest) <==>
        (req.kind != Credit && req.kind != Debit && req.kind != Transfer) || req.amount <= 0
    decreases i
  {
    hide Next;
    if i > 0 {
      assert tr[i - 1 + 1] == Next(tr[i - 1], es[i - 1]);
      ArrivalsAreBound(tr[i - 1], es[i - 1], h);
      if h < |tr[i - 1].handlers| { BadRequestIff(tr, es, i - 1, h); }
    }
  }

  /** `CreateTransactionV0` refuses a request as it arrives if and only if the same holds. */
  lemma SyncRefusedIff(s: State, req: Request)
    ensures
      var s' := Next(s, PostSync(req));
      && |s'.syncs| == |s.syncs| + 1 && s'.syncs[|s.syncs|].req == req
      && (s'.syncs[|s.syncs|].pc.SyncRejected? <==>
            (req.kind != Credit && req.kind != Debit && req.kind != Transfer) || req.amount <= 0)
  {}

  /** A read that misses the cache, of a transaction that was acked when it arrived and that no stray consumer has
      claimed since its last commit, answers `completed`. */
  lemma MissOnAckedIsCompleted(tr: seq<State>, es: seq<Event>, a: nat, i: nat, r: nat, t: TxnId)
    requires Behavior(tr, es) && a <= i <= |es| && t in tr[a].hist.acked
    requires |tr[a].readers| <= r < |tr[i].readers|
    requires tr[i].readers[r].key == TransactionKey(t) && tr[i].readers[r].pc.Miss?
    requires forall j :: a <= j <= i ==> !Astray(tr, es, j, t)
    ensures
      var val := tr[i].readers[r].pc.val;
      val.TxnVal? && val.txn == t && val.row.status.Completed?
  {
    hide Next, Initial, Astray;
    MissesAreFresh(tr, es, i, r);
    var val := tr[i].readers[r].pc.val;
    var j :| 0 <= j < i && r < |tr[j].readers| && InDatabase(tr[j].db, TransactionKey(t), val);
    if j < a { ReadersOnlyCome(tr, es, j, a); }
    AckedIsCompletedIff(tr, es, a, j, t);
  }

  lemma {:induction false} ReadersOnlyCome(tr: seq<State>, es: seq<Event>, i: nat, j: nat)
    requires Execution(tr, es) && i <= j <= |es|
    ensures |tr[i].readers| <= |tr[j].readers|
    decreases j
  {
    hide Next;
    if i < j {
      ReadersOnlyCome(tr, es, i, j - 1);
      ReadersStay(tr[j - 1], es[j - 1]);
    }
  }

  // ---- Answers are final ---------------------------------------------------

  predicate SyncOver(pc: SyncPc) {
    pc.SyncRejected? || pc.SyncFailed? || pc.SyncDone?
  }

  lemma OwnSyncEnds(s: State, v: nat, e: SyncEvent)
    requires v < |s.syncs|
    ensures
      var pc, pc' := s.syncs[v].pc, StepSync(s, v, e).syncs[v].pc;
      (SyncOver(pc) ==> pc' == pc) && (e.SyncDie? ==> SyncOver(pc'))
  {
    hide SyncCommitTx;
  }

  lemma SyncStaysOver(s: State, e: Event, v: nat)
    requires v < |s.syncs|
    ensures v < |Next(s, e).syncs|
    ensures SyncOver(s.syncs[v].pc) ==> Next(s, e).syncs[v].pc == s.syncs[v].pc
    ensures e == OnSync(v, SyncDie) ==> SyncOver(Next(s, e).syncs[v].pc)
  {
    hide StepHandler, StepConsumer, StepSync, StepReader, SyncOver;
    match e
    case OnHandler(h, he) => if h < |s.handlers| { HandlerFrame(s, h, he); }
    case OnConsumer(c, ce) => if c < |s.consumers| { ConsumerFrame(s, c, ce); }
    case OnSync(w, ve) =>
      if w < |s.syncs| {
        SyncFrame(s, w, ve);
        if w == v { OwnSyncEnds(s, v, ve); }
      }
    case OnReader(r, re) => if r < |s.readers| { ReaderFrame(s, r, re); }
    case _ =>
  }

  /** A synchronous request that has been answered, or whose process has died, is over: it keeps its answer, and commits
      nothing more. */
  lemma {:induction false} SyncAnswersAreFinal(tr: seq<State>, es: seq<Event>, i: nat, j: nat, v: nat)
    requires Execution(tr, es) && i < j <= |es| && v < |tr[i].syncs|
    requires SyncOver(tr[i].syncs[v].pc) || es[i] == OnSync(v, SyncDie)
    ensures v < |tr[j].syncs| && SyncOver(tr[j].syncs[v].pc)
    ensures SyncOver(tr[i].syncs[v].pc) ==> tr[j].syncs[v].pc == tr[i].syncs[v].pc
    decreases j
  {
    hide Next, SyncOver;
    if i + 1 < j { SyncAnswersAreFinal(tr, es, i, j - 1, v); }
    SyncStaysOver(tr[j - 1], es[j - 1], v);
    assert tr[j - 1 + 1] == Next(tr[j - 1], es[j - 1]);
  }
}

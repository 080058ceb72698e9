/** How old a cached answer can be, and why it can be wrong. */
module Staleness {
  import opened Domain
  import opened Stores
  import opened Protocol
  import opened Frames
  import opened Traces
  import opened Ledger
  import opened References

  // ---- Every cached value was read from the database -----------------------

  /** At step `readStep` of the execution, at `readTime`, the database answered `val` for the key; that step was the
      query's own, so it committed nothing. */
  ghost predicate ReadThen(tr: seq<State>, i: nat, key: Key, val: CacheValue, readStep: nat, readTime: Time) {
    && readStep < i < |tr|
    && ReadFor(tr[readStep].db, key) == Some(val)
    && tr[readStep + 1].hist.log == tr[readStep].hist.log
    && tr[readStep].clock == readTime <= tr[i].clock
  }

  ghost predicate EntrySourced(tr: seq<State>, i: nat, key: Key, e: Entry) {
    && ReadThen(tr, i, key, e.val, e.readStep, e.readTime)
    && e.exp <= e.readTime + REQUEST_DEADLINE + tr[0].cfg.ttl
  }

  ghost predicate ReaderSourced(tr: seq<State>, i: nat, rd: Reader) {
    && i < |tr| && rd.start <= tr[i].clock
    && (rd.pc.Store? ==>
          ReadThen(tr, i, rd.key, rd.pc.val, rd.pc.readStep, rd.pc.readTime) && rd.start <= rd.pc.readTime)
  }

  ghost predicate SourceInv(tr: seq<State>, i: nat) {
    && i < |tr|
    && (forall k :: k in tr[i].cache && !k.IdempotencyKey? ==> EntrySourced(tr, i, k, tr[i].cache[k]))
    && (forall r :: 0 <= r < |tr[i].readers| ==> ReaderSourced(tr, i, tr[i].readers[r]))
  }

  /** Only readers put anything but idempotency keys into Redis. */
  lemma OnlyReadersStore(s: State, e: Event)
    requires !e.OnReader?
    ensures
      var s' := Next(s, e);
      && (forall k :: k in s'.cache && !k.IdempotencyKey? ==> k in s.cache && s'.cache[k] == s.cache[k])
      && (!e.GetKey? ==> s'.readers == s.readers)
  {
    hide StepConsumer, StepSync;
    match e
    case OnHandler(h, he) =>
      if h < |s.handlers| { HandlerFrame(s, h, he); }
    case OnConsumer(c, ce) => if c < |s.consumers| { ConsumerFrame(s, c, ce); ConsumerStores(s, c, ce); }
    case OnSync(v, ve) => if v < |s.syncs| { SyncFrame(s, v, ve); }
    case _ =>
  }

  lemma ReaderSources(tr: seq<State>, i: nat, r: nat, e: ReaderEvent)
    requires i + 1 < |tr| && SourceInv(tr, i) && r < |tr[i].readers|
    requires tr[i + 1] == Next(tr[i], OnReader(r, e))
    requires tr[i].hist.step == i && tr[i].cfg == tr[0].cfg
    ensures SourceInv(tr, i + 1)
  {
    var s, s' := tr[i], tr[i + 1];
    ReaderFrame(s, r, e);
    assert ReaderSourced(tr, i, s.readers[r]);
    forall q | 0 <= q < |s'.readers| ensures ReaderSourced(tr, i + 1, s'.readers[q]) {
      assert ReaderSourced(tr, i, s.readers[q]);
    }
    forall k | k in s'.cache && !k.IdempotencyKey? ensures EntrySourced(tr, i + 1, k, s'.cache[k]) {
      if k in s.cache && s'.cache[k] == s.cache[k] {
        assert EntrySourced(tr, i, k, s.cache[k]);
      }
    }
  }

  lemma OthersSource(tr: seq<State>, i: nat, e: Event)
    requires i + 1 < |tr| && SourceInv(tr, i) && !e.OnReader?
    requires tr[i + 1] == Next(tr[i], e) && tr[i].clock <= tr[i + 1].clock
    ensures SourceInv(tr, i + 1)
  {
    var s, s' := tr[i], tr[i + 1];
    OnlyReadersStore(s, e);
    forall q | 0 <= q < |s'.readers| ensures ReaderSourced(tr, i + 1, s'.readers[q]) {
      if q < |s.readers| { assert ReaderSourced(tr, i, s.readers[q]); }
    }
    forall k | k in s'.cache && !k.IdempotencyKey? ensures EntrySourced(tr, i + 1, k, s'.cache[k]) {
      assert EntrySourced(tr, i, k, s.cache[k]);
    }
  }

  lemma SourceStep(tr: seq<State>, i: nat, e: Event)
    requires i + 1 < |tr| && SourceInv(tr, i) && tr[i + 1] == Next(tr[i], e)
    requires tr[i].hist.step == i && tr[i].cfg == tr[0].cfg && tr[i].clock <= tr[i + 1].clock
    ensures SourceInv(tr, i + 1)
  {
    hide Next, SourceInv;
    if !e.OnReader? {
      OthersSource(tr, i, e);
    } else if e.r < |tr[i].readers| {
      ReaderSources(tr, i, e.r, e.re);
    } else {
      SourceStays(tr, i, e);
    }
  }

  lemma SourceStarts(tr: seq<State>, es: seq<Event>)
    requires Behavior(tr, es)
    ensures SourceInv(tr, 0) && tr[0].hist.step == 0
  {}

  lemma {:induction false} SourceHolds(tr: seq<State>, es: seq<Event>, i: nat)
    requires Behavior(tr, es) && i <= |es|
    ensures SourceInv(tr, i)
    decreases i
  {
    hide Next, Initial, SourceInv;
    SourceStarts(tr, es);
    if i > 0 {
      SourceHolds(tr, es, i - 1);
      TimeAdvances(tr, es, 0, i - 1);
      TimeAdvances(tr, es, i - 1, i);
      assert tr[i - 1 + 1] == Next(tr[i - 1], es[i - 1]);
      SourceStep(tr, i - 1, es[i - 1]);
    }
  }

  lemma SourceStays(tr: seq<State>, i: nat, e: Event)
    requires i + 1 < |tr| && SourceInv(tr, i) && e.OnReader? && e.r >= |tr[i].readers|
    requires tr[i + 1] == Next(tr[i], e)
    ensures SourceInv(tr, i + 1)
  {}

  /** The value is the key's row, column by column. */
  ghost predicate InDatabase(db: Db, key: Key, val: CacheValue) {
    match key
    case TransactionKey(t) => t in db.txns && val == TxnVal(t, db.txns[t])
    case BalanceKey(u) => u in db.users && val == BalanceVal(u, db.users[u].balance, db.users[u].active)
    case IdempotencyKey(_, _) => false
  }

  lemma ReadIsInDatabase(db: Db, key: Key, val: CacheValue)
    requires ReadFor(db, key) == Some(val)
    ensures InDatabase(db, key, val)
  {}

  /** At some moment of the run up to step `i`, no more than `age` before its time, `val` was in the database. */
  ghost predicate HeldWithin(tr: seq<State>, i: nat, age: Time, key: Key, val: CacheValue)
    requires i < |tr|
  {
    exists j :: 0 <= j <= i && InDatabase(tr[j].db, key, val) && tr[j].clock <= tr[i].clock <= tr[j].clock + age
  }

  /** A cache hit at time `t` answers what was in the database at some moment of the run that is no more than the TTL
      and five seconds, one request's deadline, before `t`, whoever else was reading, consuming or writing. */
  lemma HitsAreBoundedlyStale(tr: seq<State>, es: seq<Event>, i: nat, r: nat)
    requires Behavior(tr, es) && i < |es| && r < |tr[i].readers|
    ensures r < |tr[i + 1].readers|
    ensures tr[i].readers[r].pc.Probe? && tr[i + 1].readers[r].pc.Hit? ==>
              HeldWithin(tr, i, tr[0].cfg.ttl + 5_000_000_000, tr[i].readers[r].key, tr[i + 1].readers[r].pc.val)
  {
    hide Next, Behavior, ReadFor, InDatabase;
    BehaviorStep(tr, es);
    var s, rd := tr[i], tr[i].readers[r];
    assert tr[i + 1] == Next(s, es[i]);
    ReadersStay(s, es[i]);
    EntryIsSourced(tr, es, i, r);
    if rd.pc.Probe? && tr[i + 1].readers[r].pc.Hit? {
      HitComesFromEntry(s, es[i], r);
      ReadIsInDatabase(tr[s.cache[rd.key].readStep].db, rd.key, s.cache[rd.key].val);
    }
  }

  // ---- Misses --------------------------------------------------------------

  /** Since reader `r` arrived, `val` was in the database. */
  ghost predicate ReadSinceArrival(tr: seq<State>, i: nat, r: nat, val: CacheValue)
    requires i < |tr| && r < |tr[i].readers|
  {
    exists j :: 0 <= j < i && r < |tr[j].readers| && InDatabase(tr[j].db, tr[i].readers[r].key, val)
  }

  lemma StillRead(tr: seq<State>, i: nat, r: nat, val: CacheValue)
    requires i + 1 < |tr| && r < |tr[i].readers| && r < |tr[i + 1].readers|
    requires tr[i + 1].readers[r].key == tr[i].readers[r].key && ReadSinceArrival(tr, i, r, val)
    ensures ReadSinceArrival(tr, i + 1, r, val)
  {
    hide InDatabase;
    var j :| 0 <= j < i && r < |tr[j].readers| && InDatabase(tr[j].db, tr[i].readers[r].key, val);
  }

  /** What a reader is about to store, or has answered from the database. */
  function FromQuery(pc: ReaderPc): Option<CacheValue> {
    match pc
    case Store(val, _, _) => Some(val)
    case Miss(val) => Some(val)
    case _ => None
  }

  /** A reader gets such a value at its query, from the database of that moment, and keeps it. */
  lemma ReaderStep(s: State, e: Event, r: nat)
    requires r < |s.readers|
    ensures
      var s' := Next(s, e);
      && r < |s'.readers| && s'.readers[r].key == s.readers[r].key
      && (FromQuery(s'.readers[r].pc).Some? ==>
            || FromQuery(s'.readers[r].pc) == FromQuery(s.readers[r].pc)
            || InDatabase(s.db, s.readers[r].key, FromQuery(s'.readers[r].pc).value))
  {
    if e.OnReader? {
      hide CacheGet;
    } else {
      OnlyReadersStore(s, e);
      KeptReaders(s, e, r);
    }
  }

  lemma KeptReaders(s: State, e: Event, r: nat)
    requires r < |s.readers| && !e.OnReader?
    ensures r < |Next(s, e).readers| && Next(s, e).readers[r] == s.readers[r]
  {
    hide StepHandler, StepConsumer, StepSync;
    match e
    case OnHandler(h, he) => if h < |s.handlers| { HandlerFrame(s, h, he); }
    case OnConsumer(c, ce) => if c < |s.consumers| { ConsumerFrame(s, c, ce); }
    case OnSync(v, ve) => if v < |s.syncs| { SyncFrame(s, v, ve); }
    case _ =>
  }

  /** A miss answers what was in the database at some moment since its request arrived. */
  lemma {:induction false} MissesAreFresh(tr: seq<State>, es: seq<Event>, i: nat, r: nat)
    requires Behavior(tr, es) && i <= |es| && r < |tr[i].readers|
    ensures FromQuery(tr[i].readers[r].pc).Some? ==>
              ReadSinceArrival(tr, i, r, FromQuery(tr[i].readers[r].pc).value)
    decreases i
  {
    hide Next, InDatabase;
    if i > 0 {
      var s, e := tr[i - 1], es[i - 1];
      assert tr[i - 1 + 1] == Next(s, e);
      if r < |s.readers| {
        ReaderStep(s, e, r);
        MissesAreFresh(tr, es, i - 1, r);
        var now, was := FromQuery(tr[i].readers[r].pc), FromQuery(s.readers[r].pc);
        if now.Some? && now == was { StillRead(tr, i - 1, r, now.value); }
      } else {
        NewReaderIsBlank(s, e, r);
      }
    }
  }

  lemma NewReaderIsBlank(s: State, e: Event, r: nat)
    requires |s.readers| <= r < |Next(s, e).readers|
    ensures FromQuery(Next(s, e).readers[r].pc).None?
  {
    hide StepHandler, StepConsumer, StepSync;
    match e
    case OnHandler(h, he) => if h < |s.handlers| { HandlerFrame(s, h, he); }
    case OnConsumer(c, ce) => if c < |s.consumers| { ConsumerFrame(s, c, ce); }
    case OnSync(v, ve) => if v < |s.syncs| { SyncFrame(s, v, ve); }
    case _ =>
  }

  lemma ReadersStay(s: State, e: Event)
    ensures |s.readers| <= |Next(s, e).readers|
  {
    if !e.OnReader? { OnlyReadersStore(s, e); }
  }

  lemma EntryIsSourced(tr: seq<State>, es: seq<Event>, i: nat, r: nat)
    requires Behavior(tr, es) && i <= |es| && r < |tr[i].readers|
    ensures var key := tr[i].readers[r].key; key in tr[i].cache ==> EntrySourced(tr, i, key, tr[i].cache[key])
  {
    hide Behavior, EntrySourced;
    BehaviorStep(tr, es);
    SourceHolds(tr, es, i);
    ReferencesHold(tr, es, i);
    assert ReaderRefers(tr[i].db, tr[i].readers[r]);
  }

  lemma HitComesFromEntry(s: State, e: Event, r: nat)
    requires r < |s.readers| && s.readers[r].pc.Probe?
    requires r < |Next(s, e).readers| && Next(s, e).readers[r].pc.Hit?
    ensures Live(s.cache, s.readers[r].key, s.clock)
    ensures s.cache[s.readers[r].key].val == Next(s, e).readers[r].pc.val
  {
    if !e.OnReader? {
      OnlyReadersStore(s, e);
    }
  }

  // ---- Why a cached balance can differ -------------------------------------

  /** If no change to the user's balance was committed after the read, the value is still the balance. */
  ghost predicate CurrentUnlessCommitted(s: State, u: UserId, val: CacheValue, readStep: nat) {
    && val.BalanceVal? && u in s.db.users
    && (s.db.users[u].balance == val.balance || exists i :: CommitAfter(s, u, readStep, i))
  }

  ghost predicate CommitAfter(s: State, u: UserId, readStep: nat, i: nat) {
    i < |s.hist.log| && s.hist.log[i].user == u && s.hist.log[i].step > readStep
  }

  /** Deletes of the key that have happened came before the entry was stored. */
  ghost predicate StoredAfterDrops(s: State, u: UserId, e: Entry) {
    forall i :: i in s.hist.drops && i < |s.hist.log| && s.hist.log[i].user == u ==> s.hist.drops[i] < e.setStep
  }

  ghost predicate BalanceEntry(s: State, u: UserId, e: Entry) {
    && e.readStep < e.setStep < s.hist.step
    && CurrentUnlessCommitted(s, u, e.val, e.readStep)
    && StoredAfterDrops(s, u, e)
  }

  ghost predicate PendingDrop(s: State, pc: ConsumerPc) {
    pc.DropBalance? ==>
      && pc.entry < |s.hist.log|
      && s.hist.log[pc.entry].user == pc.m.user && !s.hist.log[pc.entry].sync
  }

  ghost predicate PendingStore(s: State, rd: Reader) {
    rd.pc.Store? && rd.key.BalanceKey? ==>
      rd.pc.readStep < s.hist.step && CurrentUnlessCommitted(s, rd.key.user, rd.pc.val, rd.pc.readStep)
  }

  /** Log entries and deletes carry the steps they happened at; only passes, never synchronous requests, delete. */
  ghost predicate StepsRecorded(s: State) {
    && (forall i :: 0 <= i < |s.hist.log| ==> s.hist.log[i].step < s.hist.step)
    && (forall i :: i in s.hist.drops ==>
          i < |s.hist.log| && !s.hist.log[i].sync && s.hist.log[i].step < s.hist.drops[i] < s.hist.step)
  }

  ghost predicate CauseInv(s: State) {
    && StepsRecorded(s)
    && (forall c :: 0 <= c < |s.consumers| ==> PendingDrop(s, s.consumers[c].pc))
    && (forall r :: 0 <= r < |s.readers| ==> PendingStore(s, s.readers[r]))
    && (forall u :: BalanceKey(u) in s.cache ==> BalanceEntry(s, u, s.cache[BalanceKey(u)]))
  }

  /** A balance changes only together with a log entry for its user. */
  ghost predicate BalancesLogged(s: State, s': State) {
    var n := |s.hist.log|;
    && s'.db.users.Keys == s.db.users.Keys
    && (s'.hist.log == s.hist.log
        || (|s'.hist.log| == n + 1 && s'.hist.log[..n] == s.hist.log && s'.hist.log[n].step == s.hist.step))
    && (forall u :: u in s.db.users && (|s'.hist.log| == n || s'.hist.log[n].user != u) ==>
          s'.db.users[u].balance == s.db.users[u].balance)
  }

  lemma CommitLogged(s: State, c: nat, outcome: Outcome)
    requires c < |s.consumers| && s.consumers[c].pc.BalanceSet?
    ensures BalancesLogged(s, ConsumerCommit(s, c, outcome))
  {}

  lemma ConsumerLogged(s: State, c: nat, e: ConsumerEvent)
    requires c < |s.consumers|
    ensures BalancesLogged(s, StepConsumer(s, c, e))
  {
    hide ConsumerCommit;
    ConsumerStores(s, c, e);
    match e
    case DoCommit(outcome) => if s.consumers[c].pc.BalanceSet? { CommitLogged(s, c, outcome); }
    case Claim(_) =>
    case _ =>
  }

  lemma SyncLogged(s: State, v: nat, e: SyncEvent)
    requires v < |s.syncs|
    ensures BalancesLogged(s, StepSync(s, v, e))
  {}

  lemma StepLogged(s: State, e: Event)
    ensures BalancesLogged(s, Step(s, e))
  {
    hide StepHandler, StepConsumer, StepSync, StepReader;
    match e
    case OnHandler(h, he) => if h < |s.handlers| { HandlerFrame(s, h, he); }
    case OnConsumer(c, ce) => if c < |s.consumers| { ConsumerLogged(s, c, ce); }
    case OnSync(v, ve) => if v < |s.syncs| { SyncLogged(s, v, ve); }
    case OnReader(r, re) => if r < |s.readers| { ReaderFrame(s, r, re); }
    case _ =>
  }

  lemma CurrentStays(s: State, s': State, u: UserId, val: CacheValue, readStep: nat)
    requires CurrentUnlessCommitted(s, u, val, readStep) && readStep < s.hist.step && BalancesLogged(s, s')
    ensures CurrentUnlessCommitted(s', u, val, readStep)
  {
    if i: nat :| CommitAfter(s, u, readStep, i) {
      assert s'.hist.log[..|s.hist.log|][i] == s.hist.log[i];
      assert CommitAfter(s', u, readStep, i);
    } else if |s'.hist.log| > |s.hist.log| && s'.hist.log[|s.hist.log|].user == u {
      assert CommitAfter(s', u, readStep, |s.hist.log|);
    }
  }

  /** Entries and readers the step leaves alone keep their causes. */
  lemma EntryStays(s: State, s': State, u: UserId, e: Entry)
    requires BalanceEntry(s, u, e) && BalancesLogged(s, s') && s'.hist.step >= s.hist.step
    requires forall i :: i in s'.hist.drops && i < |s'.hist.log| && s'.hist.log[i].user == u ==>
               i in s.hist.drops && i < |s.hist.log| && s'.hist.drops[i] == s.hist.drops[i]
    ensures BalanceEntry(s', u, e)
  {
    CurrentStays(s, s', u, e.val, e.readStep);
    forall i | i in s'.hist.drops && i < |s'.hist.log| && s'.hist.log[i].user == u
      ensures s'.hist.drops[i] < e.setStep
    {
      assert s'.hist.log[..|s.hist.log|][i] == s.hist.log[i];
    }
  }

  lemma ReaderStays(s: State, s': State, rd: Reader)
    requires PendingStore(s, rd) && BalancesLogged(s, s') && s'.hist.step >= s.hist.step
    ensures PendingStore(s', rd)
  {
    if rd.pc.Store? && rd.key.BalanceKey? {
      CurrentStays(s, s', rd.key.user, rd.pc.val, rd.pc.readStep);
    }
  }

  lemma ConsumerRecords(s: State, c: nat, e: ConsumerEvent)
    requires CauseInv(s) && c < |s.consumers|
    ensures
      var s' := Next(s, OnConsumer(c, e));
      && StepsRecorded(s')
      && (forall d :: 0 <= d < |s'.consumers| ==> PendingDrop(s', s'.consumers[d].pc))
  {
    hide InstallPass, Validates, MarkProcessing;
    ConsumerFrame(s, c, e);
    ConsumerStores(s, c, e);
    var s' := Next(s, OnConsumer(c, e));
    assert PendingDrop(s, s.consumers[c].pc);
    forall d | 0 <= d < |s'.consumers| ensures PendingDrop(s', s'.consumers[d].pc) {
      assert PendingDrop(s, s.consumers[d].pc);
    }
  }

  lemma ConsumerCauses(s: State, c: nat, e: ConsumerEvent)
    requires CauseInv(s) && c < |s.consumers|
    ensures CauseInv(Next(s, OnConsumer(c, e)))
  {
    var s' := Next(s, OnConsumer(c, e));
    ConsumerRecords(s, c, e);
    ConsumerFrame(s, c, e);
    ConsumerStores(s, c, e);
    StepLogged(s, OnConsumer(c, e));
    assert PendingDrop(s, s.consumers[c].pc);
    forall r | 0 <= r < |s'.readers| ensures PendingStore(s', s'.readers[r]) {
      ReaderStays(s, s', s.readers[r]);
    }
    forall u | BalanceKey(u) in s'.cache ensures BalanceEntry(s', u, s'.cache[BalanceKey(u)]) {
      EntryStays(s, s', u, s.cache[BalanceKey(u)]);
    }
  }

  lemma ReaderCauses(s: State, r: nat, e: ReaderEvent)
    requires CauseInv(s) && r < |s.readers| && ReferenceInv(s)
    ensures CauseInv(Next(s, OnReader(r, e)))
  {
    var s' := Next(s, OnReader(r, e));
    ReaderFrame(s, r, e);
    assert PendingStore(s, s.readers[r]);
    assert ReaderRefers(s.db, s.readers[r]);
    forall q | 0 <= q < |s'.readers| ensures PendingStore(s', s'.readers[q]) {
      ReaderStays(s, s', s.readers[q]);
    }
    forall u | BalanceKey(u) in s'.cache ensures BalanceEntry(s', u, s'.cache[BalanceKey(u)]) {
      if BalanceKey(u) in s.cache && s'.cache[BalanceKey(u)] == s.cache[BalanceKey(u)] {
        EntryStays(s, s', u, s.cache[BalanceKey(u)]);
      } else {
        CurrentStays(s, s', u, s.readers[r].pc.val, s.readers[r].pc.readStep);
      }
    }
    forall d | 0 <= d < |s'.consumers| ensures PendingDrop(s', s'.consumers[d].pc) {
      assert PendingDrop(s, s.consumers[d].pc);
    }
  }

  /** A step that moves no consumer and deletes no key: what was recorded stays as recorded. */
  ghost predicate LeavesDrops(s: State, s': State) {
    && s'.consumers == s.consumers && s'.hist.drops == s.hist.drops && s'.hist.step == s.hist.step + 1
    && BalancesLogged(s, s')
  }

  lemma DropsStay(s: State, s': State)
    requires CauseInv(s) && LeavesDrops(s, s')
    ensures StepsRecorded(s') && forall c :: 0 <= c < |s'.consumers| ==> PendingDrop(s', s'.consumers[c].pc)
    ensures forall i :: 0 <= i < |s.hist.log| ==> s'.hist.log[i] == s.hist.log[i]
  {}

  /** Nor does it store any key or give any reader a value to store. */
  lemma CausesStay(s: State, s': State)
    requires CauseInv(s) && LeavesDrops(s, s')
    requires forall u :: BalanceKey(u) in s'.cache ==>
               BalanceKey(u) in s.cache && s'.cache[BalanceKey(u)] == s.cache[BalanceKey(u)]
    requires forall r :: 0 <= r < |s'.readers| ==>
               (r < |s.readers| && s'.readers[r] == s.readers[r]) || !s'.readers[r].pc.Store?
    ensures CauseInv(s')
  {
    hide BalancesLogged, CurrentUnlessCommitted;
    DropsStay(s, s');
    forall r | 0 <= r < |s'.readers| ensures PendingStore(s', s'.readers[r]) {
      if r < |s.readers| && s'.readers[r] == s.readers[r] { ReaderStays(s, s', s.readers[r]); }
    }
    forall u | BalanceKey(u) in s'.cache ensures BalanceEntry(s', u, s'.cache[BalanceKey(u)]) {
      EntryStays(s, s', u, s.cache[BalanceKey(u)]);
    }
  }

  lemma OtherCauses(s: State, e: Event)
    requires CauseInv(s) && !e.OnConsumer? && !e.OnReader?
    ensures CauseInv(Next(s, e))
  {
    hide CauseInv;
    OnlyReadersStore(s, e);
    StepLogged(s, e);
    OthersKeepDrops(s, e);
    CausesStay(s, Next(s, e));
  }

  lemma OthersKeepDrops(s: State, e: Event)
    requires !e.OnConsumer?
    ensures
      var s' := Next(s, e);
      && s'.consumers == s.consumers && s'.hist.drops == s.hist.drops && s'.hist.step == s.hist.step + 1
      && s'.hist.log == Step(s, e).hist.log && s'.db == Step(s, e).db
  {
    hide StepHandler, StepSync, StepReader;
    match e
    case OnHandler(h, he) => if h < |s.handlers| { HandlerFrame(s, h, he); }
    case OnSync(v, ve) => if v < |s.syncs| { SyncFrame(s, v, ve); }
    case OnReader(r, re) => if r < |s.readers| { ReaderFrame(s, r, re); }
    case _ =>
  }

  lemma NothingHappens(s: State, e: Event)
    requires CauseInv(s) && Step(s, e) == s
    ensures CauseInv(Next(s, e))
  {
    hide Step, CauseInv;
    CausesStay(s, Next(s, e));
  }

  lemma {:induction false} CausesHold(tr: seq<State>, es: seq<Event>, i: nat)
    requires Behavior(tr, es) && i <= |es|
    ensures CauseInv(tr[i])
    decreases i
  {
    hide Next;
    BehaviorStep(tr, es);
    if i > 0 {
      CausesHold(tr, es, i - 1);
      ReferencesHold(tr, es, i - 1);
      var s, e := tr[i - 1], es[i - 1];
      if e.OnConsumer? {
        if e.c < |s.consumers| { ConsumerCauses(s, e.c, e.ce); } else { NothingHappens(s, e); }
      } else if e.OnReader? {
        if e.r < |s.readers| { ReaderCauses(s, e.r, e.re); } else { NothingHappens(s, e); }
      } else {
        OtherCauses(s, e);
      }
      assert tr[i - 1 + 1] == Next(s, e);
    }
  }

  /** The three ways a committed change `i` of the log can leave entry `e` out of date: a synchronous request, which
      never invalidates; a pass that has not (yet) deleted the key; and a pass whose delete came between its reader's
      query and that reader's store. */
  datatype Cause = SyncWrite | NotDeleted | LateStore

  ghost predicate Explains(s: State, u: UserId, e: Entry, i: nat, cause: Cause) {
    && CommitAfter(s, u, e.readStep, i)
    && match cause
       case SyncWrite => s.hist.log[i].sync
       case NotDeleted => !s.hist.log[i].sync && i !in s.hist.drops
       case LateStore => i in s.hist.drops && e.readStep < s.hist.log[i].step < s.hist.drops[i] < e.setStep
  }

  /** The cause under which commit `j` of the log counts. */
  function CauseOf(s: State, j: nat): Cause
    requires j < |s.hist.log|
  {
    if s.hist.log[j].sync then SyncWrite else if j in s.hist.drops then LateStore else NotDeleted
  }

  /** What the commits for `u` after `readStep`, among the first `n` of the log, add up to under one cause. */
  function Missed(s: State, u: UserId, readStep: nat, cause: Cause, n: nat): int
    requires n <= |s.hist.log|
  {
    if n == 0 then 0
    else
      var c := s.hist.log[n - 1];
      Missed(s, u, readStep, cause, n - 1)
      + if c.user == u && c.step > readStep && CauseOf(s, n - 1) == cause then c.delta else 0
  }

  /** The amount by which a balance read at `readStep` has gone stale for one cause. */
  function StaleBy(s: State, u: UserId, readStep: nat, cause: Cause): int {
    Missed(s, u, readStep, cause, |s.hist.log|)
  }

  function StaleByAll(s: State, u: UserId, readStep: nat): int {
    StaleBy(s, u, readStep, SyncWrite) + StaleBy(s, u, readStep, NotDeleted) + StaleBy(s, u, readStep, LateStore)
  }

  /** If the first `k` commits are those up to `readStep`, the three causes share out exactly the rest. */
  lemma {:induction false} MissedIsTheRest(s: State, u: UserId, readStep: nat, k: nat, n: nat)
    requires k <= n <= |s.hist.log|
    requires forall j :: 0 <= j < |s.hist.log| ==> (j < k <==> s.hist.log[j].step <= readStep)
    ensures Missed(s, u, readStep, SyncWrite, n) + Missed(s, u, readStep, NotDeleted, n)
          + Missed(s, u, readStep, LateStore, n) == Sum(s.hist.log[..n], u) - Sum(s.hist.log[..k], u)
    decreases n
  {
    if n > k {
      MissedIsTheRest(s, u, readStep, k, n - 1);
      assert s.hist.log[..n] == s.hist.log[..n - 1] + [s.hist.log[n - 1]];
      SumSnoc(s.hist.log[..n - 1], s.hist.log[n - 1], u);
    } else {
      forall cause ensures Missed(s, u, readStep, cause, n) == 0 { NothingMissed(s, u, readStep, cause, n); }
    }
  }

  lemma {:induction false} NothingMissed(s: State, u: UserId, readStep: nat, cause: Cause, n: nat)
    requires n <= |s.hist.log| && forall j :: 0 <= j < n ==> s.hist.log[j].step <= readStep
    ensures Missed(s, u, readStep, cause, n) == 0
    decreases n
  {
    if n > 0 { NothingMissed(s, u, readStep, cause, n - 1); }
  }

  /** The log only grows, and carries the steps of its commits. */
  lemma {:induction false} LogGrows(tr: seq<State>, es: seq<Event>, i: nat, j: nat)
    requires Behavior(tr, es) && i <= j <= |es|
    ensures |tr[i].hist.log| <= |tr[j].hist.log| && tr[j].hist.log[..|tr[i].hist.log|] == tr[i].hist.log
    ensures forall k :: |tr[i].hist.log| <= k < |tr[j].hist.log| ==> tr[j].hist.log[k].step >= i
    decreases j
  {
    hide Next, Step, Initial;
    if i < j {
      LogGrows(tr, es, i, j - 1);
      LogStep(tr, es, j - 1);
      var a, b, c := tr[i].hist.log, tr[j - 1].hist.log, tr[j].hist.log;
      assert c[..|a|] == c[..|b|][..|a|];
      forall k | |a| <= k < |c| ensures c[k].step >= i {
        if k < |b| { assert c[..|b|][k] == b[k]; }
      }
    }
  }

  lemma LogStep(tr: seq<State>, es: seq<Event>, j: nat)
    requires Behavior(tr, es) && j < |es|
    ensures
      var a, b := tr[j].hist.log, tr[j + 1].hist.log;
      b == a || (|b| == |a| + 1 && b[..|a|] == a && b[|a|].step == j)
  {
    hide Step, Initial;
    TimeAdvances(tr, es, 0, j);
    StepLogged(tr[j], es[j]);
    StartsAtZero(tr[0]);
  }

  lemma StartsAtZero(s: State)
    requires Initial(s)
    ensures s.hist.step == 0
  {}

  /** The log splits at the query: what came before it, and what came after. */
  lemma LogSplits(tr: seq<State>, es: seq<Event>, r: nat, i: nat)
    requires Behavior(tr, es) && r < i <= |es| && tr[r + 1].hist.log == tr[r].hist.log
    ensures |tr[r].hist.log| <= |tr[i].hist.log| && tr[i].hist.log[..|tr[r].hist.log|] == tr[r].hist.log
    ensures forall j :: 0 <= j < |tr[i].hist.log| ==> (j < |tr[r].hist.log| <==> tr[i].hist.log[j].step <= r)
  {
    hide Next, Initial;
    LogGrows(tr, es, r, i);
    LogGrows(tr, es, r + 1, i);
    CausesHold(tr, es, r);
    TimeAdvances(tr, es, 0, r);
    StartsAtZero(tr[0]);
    forall j | 0 <= j < |tr[r].hist.log| ensures tr[i].hist.log[j].step < r {
      assert tr[i].hist.log[..|tr[r].hist.log|][j] == tr[r].hist.log[j];
    }
  }

  lemma CachedBalanceRead(tr: seq<State>, es: seq<Event>, i: nat, u: UserId)
    requires Behavior(tr, es) && i <= |es| && BalanceKey(u) in tr[i].cache
    ensures
      var e := tr[i].cache[BalanceKey(u)];
      && e.readStep < i && tr[e.readStep + 1].hist.log == tr[e.readStep].hist.log
      && u in tr[e.readStep].db.users && e.val.BalanceVal? && e.val.balance == tr[e.readStep].db.users[u].balance
  {
    hide Next, Initial;
    SourceHolds(tr, es, i);
    assert EntrySourced(tr, i, BalanceKey(u), tr[i].cache[BalanceKey(u)]);
  }

  /** In every reachable state of every run, a cached balance is off by exactly the changes committed for its user since
      its reader's query, and every one of those has one of the three causes. */
  lemma CachedBalanceOffBy(tr: seq<State>, es: seq<Event>, i: nat, u: UserId)
    requires Behavior(tr, es) && i <= |es| && BalanceKey(u) in tr[i].cache
    ensures
      var s, e := tr[i], tr[i].cache[BalanceKey(u)];
      && e.val.BalanceVal? && u in s.db.users
      && s.db.users[u].balance == e.val.balance + StaleByAll(s, u, e.readStep)
    ensures
      var s, e := tr[i], tr[i].cache[BalanceKey(u)];
      forall j: nat :: CommitAfter(s, u, e.readStep, j) ==> Explains(s, u, e, j, CauseOf(s, j))
  {
    hide Next, Initial, Sum, Missed;
    var s, e := tr[i], tr[i].cache[BalanceKey(u)];
    CachedBalanceRead(tr, es, i, u);
    LedgerHolds(tr, es, i);
    LedgerHolds(tr, es, e.readStep);
    LogSplits(tr, es, e.readStep, i);
    MissedIsTheRest(s, u, e.readStep, |tr[e.readStep].hist.log|, |s.hist.log|);
    assert s.hist.log[..|s.hist.log|] == s.hist.log;
    CausesHold(tr, es, i);
    assert BalanceEntry(s, u, e);
  }

  /** When a cached balance is right: if and only if the changes committed since its reader's query cancel out. */
  lemma CachedBalanceIsRightIff(tr: seq<State>, es: seq<Event>, i: nat, u: UserId)
    requires Behavior(tr, es) && i <= |es| && BalanceKey(u) in tr[i].cache
    ensures
      var s, e := tr[i], tr[i].cache[BalanceKey(u)];
      && u in s.db.users
      && (e.val == BalanceVal(u, s.db.users[u].balance, s.db.users[u].active) <==> StaleByAll(s, u, e.readStep) == 0)
  {
    hide Next, Initial, StaleByAll;
    CachedBalanceOffBy(tr, es, i, u);
    ReferencesHold(tr, es, i);
    assert ValueRefers(tr[i].db, BalanceKey(u), tr[i].cache[BalanceKey(u)].val);
  }

  lemma {:induction false} MissedSomething(s: State, u: UserId, readStep: nat, cause: Cause, n: nat)
    requires n <= |s.hist.log| && Missed(s, u, readStep, cause, n) != 0
    ensures exists j: nat :: CommitAfter(s, u, readStep, j) && CauseOf(s, j) == cause
    decreases n
  {
    if Missed(s, u, readStep, cause, n - 1) != 0 {
      MissedSomething(s, u, readStep, cause, n - 1);
    } else {
      assert CommitAfter(s, u, readStep, n - 1);
    }
  }

  lemma SomethingMissed(s: State, u: UserId, readStep: nat)
    requires StaleByAll(s, u, readStep) != 0
    ensures exists j: nat, cause ::
              CommitAfter(s, u, readStep, j) && CauseOf(s, j) == cause && StaleBy(s, u, readStep, cause) != 0
  {
    var n := |s.hist.log|;
    if Missed(s, u, readStep, SyncWrite, n) != 0 { MissedSomething(s, u, readStep, SyncWrite, n); }
    if Missed(s, u, readStep, NotDeleted, n) != 0 { MissedSomething(s, u, readStep, NotDeleted, n); }
    if Missed(s, u, readStep, LateStore, n) != 0 { MissedSomething(s, u, readStep, LateStore, n); }
  }

  /** A cached balance that differs from the database has a cause of a kind that does not cancel out. */
  lemma StaleBalancesHaveACause(tr: seq<State>, es: seq<Event>, i: nat, u: UserId)
    requires Behavior(tr, es) && i <= |es| && BalanceKey(u) in tr[i].cache
    ensures
      var s, e := tr[i], tr[i].cache[BalanceKey(u)];
      && e.val.BalanceVal? && u in s.db.users
      && (e.val.balance != s.db.users[u].balance ==>
            exists j, cause :: Explains(s, u, e, j, cause) && StaleBy(s, u, e.readStep, cause) != 0)
  {
    hide Next, Initial;
    CachedBalanceOffBy(tr, es, i, u);
    var s, e := tr[i], tr[i].cache[BalanceKey(u)];
    if e.val.balance != s.db.users[u].balance {
      SomethingMissed(s, u, e.readStep);
    }
  }

  /** Every delete succeeds, commit errors mean "not applied", and no consumer dies before its delete. */
  predicate DeletesSucceed(s: State, e: Event) {
    e.OnConsumer? && e.c < |s.consumers| ==>
      && (e.ce.DeleteBalance? ==> e.ce.ok)
      && (e.ce.DoCommit? ==> !e.ce.outcome.Ambiguous?)
      && !(e.ce.Crash? && s.consumers[e.c].pc.DropBalance?)
  }

  ghost predicate AboutToDelete(s: State, c: nat, i: nat) {
    c < |s.consumers| && s.consumers[c].pc.DropBalance? && s.consumers[c].pc.entry == i
  }

  ghost predicate DeleteInv(s: State) {
    forall i :: 0 <= i < |s.hist.log| && !s.hist.log[i].sync && i !in s.hist.drops ==>
      exists c :: AboutToDelete(s, c, i)
  }

  lemma ConsumerDeletes(s: State, c: nat, e: ConsumerEvent)
    requires DeleteInv(s) && c < |s.consumers| && DeletesSucceed(s, OnConsumer(c, e))
    ensures DeleteInv(StepConsumer(s, c, e))
  {
    hide InstallPass, Validates, MarkProcessing;
    var s' := StepConsumer(s, c, e);
    ConsumerFrame(s, c, e);
    ConsumerStores(s, c, e);
    forall i | 0 <= i < |s'.hist.log| && !s'.hist.log[i].sync && i !in s'.hist.drops
      ensures exists d :: AboutToDelete(s', d, i)
    {
      if i == |s.hist.log| {
        assert AboutToDelete(s', c, i);
      } else {
        var d: nat :| AboutToDelete(s, d, i);
        assert d != c ==> s'.consumers[d] == s.consumers[d];
        assert AboutToDelete(s', d, i);
      }
    }
  }

  lemma DeletesKept(s: State, e: Event)
    requires DeleteInv(s) && DeletesSucceed(s, e)
    ensures DeleteInv(Next(s, e))
  {
    hide StepConsumer;
    var s', n := Next(s, e), |s.hist.log|;
    if e.OnConsumer? && e.c < |s.consumers| {
      ConsumerDeletes(s, e.c, e.ce);
      SameDeletes(StepConsumer(s, e.c, e.ce), s');
    } else if !e.OnConsumer? {
      OthersKeepDrops(s, e);
      OthersLogSync(s, e);
      SameDeletes(s, s');
    } else {
      SameDeletes(s, s');
    }
  }

  lemma SameDeletes(s: State, s': State)
    requires DeleteInv(s) && s'.consumers == s.consumers && s'.hist.drops == s.hist.drops
    requires |s'.hist.log| >= |s.hist.log| && s'.hist.log[..|s.hist.log|] == s.hist.log
    requires forall i :: |s.hist.log| <= i < |s'.hist.log| ==> s'.hist.log[i].sync
    ensures DeleteInv(s')
  {
    forall i | 0 <= i < |s'.hist.log| && !s'.hist.log[i].sync && i !in s'.hist.drops
      ensures exists c :: AboutToDelete(s', c, i)
    {
      assert s'.hist.log[..|s.hist.log|][i] == s.hist.log[i];
      var c: nat :| AboutToDelete(s, c, i);
      assert AboutToDelete(s', c, i);
    }
  }

  lemma OthersLogSync(s: State, e: Event)
    requires !e.OnConsumer?
    ensures
      var log' := Next(s, e).hist.log;
      && |log'| >= |s.hist.log| && log'[..|s.hist.log|] == s.hist.log
      && forall i :: |s.hist.log| <= i < |log'| ==> log'[i].sync
  {
    hide StepHandler, StepReader;
    match e
    case OnHandler(h, he) => if h < |s.handlers| { HandlerFrame(s, h, he); }
    case OnSync(v, ve) => if v < |s.syncs| { SyncFrame(s, v, ve); }
    case OnReader(r, re) => if r < |s.readers| { ReaderFrame(s, r, re); }
    case _ =>
  }

  lemma {:induction false} DeletesHold(tr: seq<State>, es: seq<Event>, i: nat)
    requires Behavior(tr, es) && i <= |es| && Always(tr, es, DeletesSucceed)
    ensures DeleteInv(tr[i])
    decreases i
  {
    hide Next;
    BehaviorStep(tr, es);
    if i > 0 {
      DeletesHold(tr, es, i - 1);
      DeletesKept(tr[i - 1], es[i - 1]);
      assert tr[i - 1 + 1] == Next(tr[i - 1], es[i - 1]);
    }
  }

  /** Consumer `c` has committed change `j` of the user's balance and not deleted the user's key yet. */
  ghost predicate InFlight(s: State, c: nat, u: UserId, j: nat) {
    AboutToDelete(s, c, j) && s.consumers[c].pc.m.user == u
  }

  /** When deletes succeed and the user has had no synchronous write since the query, a cached balance is off by exactly
      the changes of consumers that are between their Commit and their delete of this user's key, and those whose
      delete came between the reader's query and its store: right if and only if these cancel out. */
  lemma StaleOnlyWhileRacing(tr: seq<State>, es: seq<Event>, i: nat, u: UserId)
    requires Behavior(tr, es) && i <= |es| && Always(tr, es, DeletesSucceed)
    requires BalanceKey(u) in tr[i].cache
    requires forall j: nat :: CommitAfter(tr[i], u, tr[i].cache[BalanceKey(u)].readStep, j) ==> !tr[i].hist.log[j].sync
    ensures
      var s, e := tr[i], tr[i].cache[BalanceKey(u)];
      var racing := StaleBy(s, u, e.readStep, NotDeleted) + StaleBy(s, u, e.readStep, LateStore);
      && u in s.db.users && e.val.BalanceVal?
      && s.db.users[u].balance == e.val.balance + racing
      && (e.val == BalanceVal(u, s.db.users[u].balance, s.db.users[u].active) <==> racing == 0)
      && (racing != 0 ==> (exists c, j :: InFlight(s, c, u, j)) || exists j :: Explains(s, u, e, j, LateStore))
    ensures
      var s, e := tr[i], tr[i].cache[BalanceKey(u)];
      forall j: nat :: CommitAfter(s, u, e.readStep, j) ==>
        (exists c :: InFlight(s, c, u, j)) || Explains(s, u, e, j, LateStore)
  {
    hide Next, Initial, Missed, DeletesSucceed;
    var s, e := tr[i], tr[i].cache[BalanceKey(u)];
    CachedBalanceOffBy(tr, es, i, u);
    CachedBalanceIsRightIff(tr, es, i, u);
    DeletesHold(tr, es, i);
    CausesHold(tr, es, i);
    if StaleBy(s, u, e.readStep, SyncWrite) != 0 { MissedSomething(s, u, e.readStep, SyncWrite, |s.hist.log|); }
    forall j: nat | CommitAfter(s, u, e.readStep, j)
      ensures (exists c :: InFlight(s, c, u, j)) || Explains(s, u, e, j, LateStore)
    {
      if CauseOf(s, j) == NotDeleted {
        var c: nat :| AboutToDelete(s, c, j);
        assert PendingDrop(s, s.consumers[c].pc);
        assert InFlight(s, c, u, j);
      }
    }
    if StaleByAll(s, u, e.readStep) != 0 { SomethingMissed(s, u, e.readStep); }
  }
}

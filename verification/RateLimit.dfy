/** The per-IP rate limiter as a function of the requests and cleanups it has seen.
    A token bucket is exact: tokens are counted in billionths, so that `rps` of them arrive every nanosecond. */
module RateLimit {
  import opened Domain

  const NANO: nat := 1_000_000_000
  const MINUTE: Time := 60 * SECOND

  /** `cleanupLimiters` keeps what was seen within the last ten minutes. */
  const IDLE: Time := 10 * MINUTE

  /** RATE_LIMIT_RPS and RATE_LIMIT_BURST. */
  datatype Limits = Limits(rps: nat, burst: nat)

  datatype Bucket = Bucket(tokens: nat, last: Time)

  datatype Slot = Slot(bucket: Bucket, lastSeen: Time)

  type Table = map<string, Slot>

  function Capacity(l: Limits): nat {
    l.burst * NANO
  }

  /** `rate.NewLimiter`: a bucket starts full. */
  function Fresh(l: Limits): Bucket {
    Bucket(Capacity(l), 0)
  }

  function Refill(l: Limits, b: Bucket, now: Time): nat {
    b.tokens + l.rps * if now < b.last then 0 else now - b.last
  }

  function Available(l: Limits, b: Bucket, now: Time): nat {
    if Refill(l, b, now) > Capacity(l) then Capacity(l) else Refill(l, b, now)
  }

  /** `Allow`: takes one token if there is one, and otherwise leaves the bucket alone. */
  predicate Allows(l: Limits, b: Bucket, now: Time) {
    Available(l, b, now) >= NANO
  }

  function Taken(l: Limits, b: Bucket, now: Time): Bucket {
    if Allows(l, b, now) then Bucket(Available(l, b, now) - NANO, now) else b
  }

  // ---- The table -----------------------------------------------------------

  function BucketOf(l: Limits, table: Table, ip: string): Bucket {
    if ip in table then table[ip].bucket else Fresh(l)
  }

  /** `getLimiter`: stamps the entry, or makes one. */
  function AfterLook(l: Limits, table: Table, ip: string, now: Time): Table {
    table[ip := Slot(BucketOf(l, table, ip), now)]
  }

  /** `Allow` on the entry's bucket. */
  function AfterAsk(l: Limits, table: Table, ip: string, now: Time): Table {
    if ip in table then table[ip := Slot(Taken(l, table[ip].bucket, now), table[ip].lastSeen)] else table
  }

  predicate Idle(slot: Slot, now: Time) {
    now > slot.lastSeen + IDLE
  }

  /** `cleanupLimiters` at one entry. */
  function AfterSweep(table: Table, ip: string, now: Time): Table {
    if ip in table && Idle(table[ip], now) then table - {ip} else table
  }

  // ---- Traces --------------------------------------------------------------

  /** A request looks its limiter up and later asks it; a cleanup visits one entry after another.  Between any two of
      these, other requests may run.  `look` is the position of the asking request's own Look. */
  datatype Traffic = Look(ip: string, at: Time) | Ask(ip: string, at: Time, look: nat) | Sweep(ip: string, at: Time)

  predicate Timed(es: seq<Traffic>) {
    forall i, j :: 0 <= i < j < |es| ==> es[i].at <= es[j].at
  }

  /** Every Ask belongs to a Look of its own, at most `delay` earlier. */
  predicate Prompt(es: seq<Traffic>, delay: Time) {
    && (forall q :: 0 <= q < |es| && es[q].Ask? ==> Follows(es, q, delay))
    && (forall p, q :: 0 <= p < q < |es| && es[p].Ask? && es[q].Ask? ==> es[p].look != es[q].look)
  }

  predicate Follows(es: seq<Traffic>, q: nat, delay: Time)
    requires q < |es| && es[q].Ask?
  {
    es[q].look < q && es[es[q].look].Look? && es[es[q].look].ip == es[q].ip && es[q].at <= es[es[q].look].at + delay
  }

  function After(l: Limits, evicts: bool, table: Table, e: Traffic): Table {
    match e
    case Look(ip, at) => AfterLook(l, table, ip, at)
    case Ask(ip, at, _) => AfterAsk(l, table, ip, at)
    case Sweep(ip, at) => if evicts then AfterSweep(table, ip, at) else table
  }

  function AfterAll(l: Limits, evicts: bool, table: Table, es: seq<Traffic>): Table
    decreases |es|
  {
    if es == [] then table else After(l, evicts, AfterAll(l, evicts, table, es[..|es| - 1]), es[|es| - 1])
  }

  /** The table after a trace; `evicts` is false for a table that never deletes. */
  function TableAfter(l: Limits, evicts: bool, es: seq<Traffic>): Table {
    AfterAll(l, evicts, map[], es)
  }

  /** What the limiter answers to an Ask that comes after a trace. */
  predicate Answer(l: Limits, evicts: bool, es: seq<Traffic>, ip: string, at: Time) {
    Allows(l, BucketOf(l, TableAfter(l, evicts, es), ip), at)
  }

  /** Every request of every trace gets the answer it would get from a table that never deletes. */
  ghost predicate EvictionUnobservable(l: Limits, delay: Time) {
    forall es, e: Traffic :: e.Ask? && Timed(es + [e]) && Prompt(es + [e], delay) ==>
      (Answer(l, true, es, e.ip, e.at) <==> Answer(l, false, es, e.ip, e.at))
  }

  function TimeOf(es: seq<Traffic>): Time {
    if es == [] then 0 else es[|es| - 1].at
  }

  lemma AfterSnoc(l: Limits, evicts: bool, table: Table, es: seq<Traffic>, e: Traffic)
    ensures AfterAll(l, evicts, table, es + [e]) == After(l, evicts, AfterAll(l, evicts, table, es), e)
  {
    assert (es + [e])[..|es|] == es;
  }

  lemma TimedPrefix(es: seq<Traffic>, e: Traffic)
    requires Timed(es + [e])
    ensures Timed(es) && TimeOf(es) <= e.at
  {
    var all := es + [e];
    forall i, j | 0 <= i < j < |es| ensures es[i].at <= es[j].at {
      assert all[i] == es[i] && all[j] == es[j];
    }
    if es != [] {
      assert all[|es| - 1] == es[|es| - 1] && all[|es|] == e;
    }
  }

  lemma PromptPrefix(es: seq<Traffic>, e: Traffic, delay: Time)
    requires Prompt(es + [e], delay)
    ensures Prompt(es, delay)
  {
    var all := es + [e];
    forall q | 0 <= q < |es| && es[q].Ask? ensures Follows(es, q, delay) {
      assert all[q] == es[q] && Follows(all, q, delay);
    }
    forall p, q | 0 <= p < q < |es| && es[p].Ask? && es[q].Ask? ensures es[p].look != es[q].look {
      assert all[p] == es[p] && all[q] == es[q];
    }
  }

  // ---- A request asks the limiter it looked up -----------------------------

  /** For ten minutes after a Look its address keeps its entry. */
  lemma {:induction false} LookKept(l: Limits, evicts: bool, es: seq<Traffic>, p: nat)
    requires Timed(es) && p < |es| && es[p].Look? && TimeOf(es) <= es[p].at + IDLE
    ensures
      var table := TableAfter(l, evicts, es);
      es[p].ip in table && es[p].at <= table[es[p].ip].lastSeen
    decreases |es|
  {
    hide Taken, Fresh;
    var front, last := es[..|es| - 1], es[|es| - 1];
    assert es == front + [last];
    TimedPrefix(front, last);
    if p < |front| { LookKept(l, evicts, front, p); }
  }

  /** Until a prompt request asks, its limiter stays in the table: nobody else's table entry is asked, and none that has
      been dropped. */
  lemma AskedIsCurrent(l: Limits, evicts: bool, es: seq<Traffic>, q: nat, delay: Time, r: nat)
    requires Timed(es) && Prompt(es, delay) && delay <= IDLE
    requires q < |es| && es[q].Ask? && es[q].look < r <= q
    ensures
      var table := TableAfter(l, evicts, es[..r]);
      es[q].ip in table && es[q].at <= table[es[q].ip].lastSeen + delay
  {
    hide TableAfter;
    assert Follows(es, q, delay);
    var p := es[q].look;
    assert es[..r][p] == es[p];
    assert Timed(es[..r]);
    assert TimeOf(es[..r]) == es[r - 1].at <= es[q].at;
    LookKept(l, evicts, es[..r], p);
  }

  lemma AskedIsPresent(l: Limits, evicts: bool, es: seq<Traffic>, e: Traffic, delay: Time)
    requires e.Ask? && Timed(es + [e]) && Prompt(es + [e], delay) && delay <= IDLE
    ensures
      var table := TableAfter(l, evicts, es);
      e.ip in table && e.at <= table[e.ip].lastSeen + delay
  {
    hide TableAfter;
    assert Follows(es + [e], |es|, delay);
    AskedIsCurrent(l, evicts, es + [e], |es|, delay, |es|);
    assert (es + [e])[..|es|] == es;
  }

  // ---- Buckets -------------------------------------------------------------

  predicate Full(l: Limits, b: Bucket, now: Time) {
    Available(l, b, now) == Capacity(l)
  }

  lemma RefillGrows(l: Limits, b: Bucket, t: Time, t': Time)
    requires b.last <= t <= t'
    ensures Refill(l, b, t') == Refill(l, b, t) + l.rps * (t' - t)
    ensures Available(l, b, t) <= Available(l, b, t') <= Available(l, b, t) + l.rps * (t' - t)
  {
    assert l.rps * (t' - b.last) == l.rps * (t - b.last) + l.rps * (t' - t);
    assert l.rps * (t' - t) >= 0;
  }

  lemma StaysFull(l: Limits, b: Bucket, t: Time, t': Time)
    requires b.last <= t <= t' && Full(l, b, t)
    ensures Full(l, b, t')
  {
    RefillGrows(l, b, t, t');
  }

  // ---- Eviction is unobservable ---------------------------------------------

  /** Ten minutes and a nanosecond, less what a request may take to ask, refill any bucket. */
  predicate RefillsWhileIdle(l: Limits, delay: Time)
    requires delay <= IDLE
  {
    Capacity(l) <= l.rps * (IDLE + 1 - delay)
  }

  /** The two tables agree on every bucket, or the evicting one would make a fresh one and the other's is full. */
  ghost predicate Simulates(l: Limits, delay: Time, e: Table, k: Table, now: Time) {
    && e.Keys <= k.Keys
    && (forall ip :: ip in e ==> e[ip].bucket.last <= now && e[ip].bucket.last <= e[ip].lastSeen + delay)
    && (forall ip :: ip in k ==> k[ip].bucket.last <= now)
    && (forall ip :: ip in k ==> SameBucket(l, BucketOf(l, e, ip), k[ip].bucket, now))
  }

  ghost predicate SameBucket(l: Limits, a: Bucket, b: Bucket, now: Time) {
    a == b || (Full(l, a, now) && Full(l, b, now))
  }

  lemma SameLater(l: Limits, a: Bucket, b: Bucket, t: Time, t': Time)
    requires SameBucket(l, a, b, t) && a.last <= t <= t' && b.last <= t
    ensures SameBucket(l, a, b, t')
    ensures Allows(l, a, t') <==> Allows(l, b, t')
  {
    if a != b {
      StaysFull(l, a, t, t');
      StaysFull(l, b, t, t');
    }
  }

  lemma SameTaken(l: Limits, a: Bucket, b: Bucket, now: Time)
    requires SameBucket(l, a, b, now) && a.last <= now && b.last <= now
    ensures SameBucket(l, Taken(l, a, now), Taken(l, b, now), now)
    ensures Allows(l, a, now) <==> Allows(l, b, now)
    ensures Taken(l, a, now).last <= now && Taken(l, b, now).last <= now
  {
    SameLater(l, a, b, now, now);
  }

  lemma FreshIsFull(l: Limits, now: Time)
    ensures Full(l, Fresh(l), now) && Fresh(l).last <= now
  {
    assert l.rps * now >= 0;
  }

  lemma SimulationLater(l: Limits, delay: Time, e: Table, k: Table, t: Time, t': Time)
    requires Simulates(l, delay, e, k, t) && t <= t'
    ensures Simulates(l, delay, e, k, t')
  {
    hide Full, Allows;
    FreshIsFull(l, t);
    forall ip | ip in k ensures SameBucket(l, BucketOf(l, e, ip), k[ip].bucket, t') {
      SameLater(l, BucketOf(l, e, ip), k[ip].bucket, t, t');
    }
  }

  lemma LookSimulates(l: Limits, delay: Time, e: Table, k: Table, ip: string, now: Time)
    requires Simulates(l, delay, e, k, now)
    ensures Simulates(l, delay, AfterLook(l, e, ip, now), AfterLook(l, k, ip, now), now)
  {
    hide SameBucket, Full, Capacity;
    FreshIsFull(l, now);
    var e', k' := AfterLook(l, e, ip, now), AfterLook(l, k, ip, now);
    forall q | q in k' ensures SameBucket(l, BucketOf(l, e', q), k'[q].bucket, now) {
      if q in k {
        assert BucketOf(l, e', q) == BucketOf(l, e, q);
      } else {
        ItselfIsSame(l, Fresh(l), now);
      }
    }
  }

  lemma ItselfIsSame(l: Limits, b: Bucket, now: Time)
    ensures SameBucket(l, b, b, now)
  {}

  lemma AskSimulates(l: Limits, delay: Time, e: Table, k: Table, ip: string, now: Time)
    requires Simulates(l, delay, e, k, now) && ip in e && now <= e[ip].lastSeen + delay
    ensures Allows(l, BucketOf(l, e, ip), now) <==> Allows(l, BucketOf(l, k, ip), now)
    ensures Simulates(l, delay, AfterAsk(l, e, ip, now), AfterAsk(l, k, ip, now), now)
  {
    hide SameBucket, Allows, Taken, Fresh;
    SameTaken(l, e[ip].bucket, k[ip].bucket, now);
  }

  lemma SweepSimulates(l: Limits, delay: Time, e: Table, k: Table, ip: string, now: Time)
    requires delay <= IDLE && RefillsWhileIdle(l, delay) && Simulates(l, delay, e, k, now)
    ensures Simulates(l, delay, AfterSweep(e, ip, now), k, now)
  {
    hide RefillsWhileIdle, Capacity, Available;
    FreshIsFull(l, now);
    if ip in e && Idle(e[ip], now) {
      IdleIsFull(l, delay, e[ip], now);
    }
  }

  lemma IdleIsFull(l: Limits, delay: Time, slot: Slot, now: Time)
    requires delay <= IDLE && RefillsWhileIdle(l, delay) && slot.bucket.last <= slot.lastSeen + delay && Idle(slot, now)
    ensures Full(l, slot.bucket, now)
  {
    TimesMore(l.rps, IDLE + 1 - delay, now - slot.bucket.last);
  }

  lemma TimesMore(k: nat, x: nat, y: nat)
    requires x <= y
    ensures k * x <= k * y
  {}

  lemma {:induction false} SimulationHolds(l: Limits, es: seq<Traffic>, delay: Time)
    requires delay <= IDLE && RefillsWhileIdle(l, delay) && Timed(es) && Prompt(es, delay)
    ensures Simulates(l, delay, TableAfter(l, true, es), TableAfter(l, false, es), TimeOf(es))
    decreases |es|
  {
    hide Timed, Prompt, RefillsWhileIdle, AfterLook, AfterAsk, AfterSweep;
    if es != [] {
      var front, last := es[..|es| - 1], es[|es| - 1];
      assert es == front + [last];
      TimedPrefix(front, last);
      PromptPrefix(front, last, delay);
      SimulationHolds(l, front, delay);
      var e, k := TableAfter(l, true, front), TableAfter(l, false, front);
      SimulationLater(l, delay, e, k, TimeOf(front), last.at);
      match last
      case Look(ip, at) => LookSimulates(l, delay, e, k, ip, at);
      case Ask(ip, at, _) =>
        AskedIsPresent(l, true, front, last, delay);
        AskSimulates(l, delay, e, k, ip, at);
      case Sweep(ip, at) => SweepSimulates(l, delay, e, k, ip, at);
    }
  }

  lemma SameAnswer(l: Limits, es: seq<Traffic>, e: Traffic, delay: Time)
    requires delay <= IDLE && RefillsWhileIdle(l, delay) && e.Ask? && Timed(es + [e]) && Prompt(es + [e], delay)
    ensures Answer(l, true, es, e.ip, e.at) <==> Answer(l, false, es, e.ip, e.at)
  {
    hide Timed, Prompt, RefillsWhileIdle, TableAfter, Allows;
    TimedPrefix(es, e);
    PromptPrefix(es, e, delay);
    SimulationHolds(l, es, delay);
    AskedIsPresent(l, true, es, e, delay);
    SimulationLater(l, delay, TableAfter(l, true, es), TableAfter(l, false, es), TimeOf(es), e.at);
    AskSimulates(l, delay, TableAfter(l, true, es), TableAfter(l, false, es), e.ip, e.at);
  }

  // ---- ... exactly when a bucket refills in the idle time -------------------

  /** `n` requests from one address look their limiter up at one instant. */
  function Looks(n: nat, ip: string, at: Time): seq<Traffic> {
    seq(n, _ => Look(ip, at))
  }

  /** `n` requests ask at one instant, the first having looked at position `first` of the trace. */
  function Asks(n: nat, ip: string, at: Time, first: nat): seq<Traffic> {
    seq(n, i requires i >= 0 => Ask(ip, at, first + i))
  }

  /** What `n` such requests leave of `a` available tokens. */
  function Left(a: nat, n: nat): nat {
    if n == 0 then a else if Left(a, n - 1) >= NANO then Left(a, n - 1) - NANO else Left(a, n - 1)
  }

  lemma {:induction false} LeftIs(a: nat, n: nat)
    ensures n * NANO <= a ==> Left(a, n) == a - n * NANO
    ensures a < (n + 1) * NANO ==> Left(a, n) < NANO
  {
    if n > 0 { LeftIs(a, n - 1); }
  }

  lemma TakeOne(l: Limits, b: Bucket, at: Time)
    requires b.last <= at
    ensures Taken(l, b, at).last <= at
    ensures Available(l, Taken(l, b, at), at) == Left(Available(l, b, at), 1)
  {}

  lemma {:induction false} LooksKeep(l: Limits, evicts: bool, table: Table, n: nat, ip: string, at: Time)
    requires n > 0
    ensures AfterAll(l, evicts, table, Looks(n, ip, at)) == AfterLook(l, table, ip, at)
    decreases n
  {
    var all := Looks(n, ip, at);
    assert all == Looks(n - 1, ip, at) + [Look(ip, at)];
    AfterSnoc(l, evicts, table, Looks(n - 1, ip, at), Look(ip, at));
    if n == 1 {
      assert Looks(0, ip, at) == [];
    } else {
      LooksKeep(l, evicts, table, n - 1, ip, at);
    }
  }

  lemma {:induction false} AsksTake(l: Limits, evicts: bool, table: Table, n: nat, ip: string, at: Time, first: nat)
    requires ip in table && table[ip].bucket.last <= at
    ensures
      var table' := AfterAll(l, evicts, table, Asks(n, ip, at, first));
      && ip in table' && table'[ip].lastSeen == table[ip].lastSeen && table'[ip].bucket.last <= at
      && Available(l, table'[ip].bucket, at) == Left(Available(l, table[ip].bucket, at), n)
    decreases n
  {
    hide Available, Taken;
    if n == 0 {
      assert Asks(0, ip, at, first) == [];
    } else {
      AsksTake(l, evicts, table, n - 1, ip, at, first);
      assert Asks(n, ip, at, first) == Asks(n - 1, ip, at, first) + [Ask(ip, at, first + (n - 1))];
      AfterSnoc(l, evicts, table, Asks(n - 1, ip, at, first), Ask(ip, at, first + (n - 1)));
      TakeOne(l, AfterAll(l, evicts, table, Asks(n - 1, ip, at, first))[ip].bucket, at);
    }
  }

  lemma {:induction false} AfterConcat(l: Limits, evicts: bool, table: Table, a: seq<Traffic>, b: seq<Traffic>)
    ensures AfterAll(l, evicts, table, a + b) == AfterAll(l, evicts, AfterAll(l, evicts, table, a), b)
    decreases |b|
  {
    hide After;
    if b == [] {
      assert a + b == a;
    } else {
      var front, last := b[..|b| - 1], b[|b| - 1];
      AfterConcat(l, evicts, table, a, front);
      assert a + b == (a + front) + [last];
      AfterSnoc(l, evicts, table, a + front, last);
    }
  }

  /** The witness: look, empty the bucket as late as allowed, stay idle until just swept, and come back for the whole
      burst. */
  function FirstBurst(l: Limits, ip: string, delay: Time): seq<Traffic> {
    Looks(l.burst, ip, 0) + Asks(l.burst, ip, delay, 0)
  }

  function Return(l: Limits, ip: string): seq<Traffic>
    requires l.burst > 0
  {
    [Sweep(ip, IDLE + 1)] + Looks(l.burst, ip, IDLE + 1) + Asks(l.burst - 1, ip, IDLE + 1, 2 * l.burst + 1)
  }

  function Witness(l: Limits, ip: string, delay: Time): seq<Traffic>
    requires l.burst > 0
  {
    FirstBurst(l, ip, delay) + Return(l, ip)
  }

  function LastAsk(l: Limits, ip: string): Traffic
    requires l.burst > 0
  {
    Ask(ip, IDLE + 1, 3 * l.burst)
  }

  /** Event `i` of the witness and its last Ask. */
  function WitnessAt(l: Limits, ip: string, delay: Time, i: nat): Traffic
    requires l.burst > 0
  {
    if i < l.burst then Look(ip, 0)
    else if i < 2 * l.burst then Ask(ip, delay, i - l.burst)
    else if i == 2 * l.burst then Sweep(ip, IDLE + 1)
    else if i < 3 * l.burst + 1 then Look(ip, IDLE + 1)
    else Ask(ip, IDLE + 1, i - l.burst)
  }

  lemma WitnessIs(l: Limits, ip: string, delay: Time)
    requires l.burst > 0
    ensures
      var all := Witness(l, ip, delay) + [LastAsk(l, ip)];
      |all| == 4 * l.burst + 1 && forall i :: 0 <= i < |all| ==> all[i] == WitnessAt(l, ip, delay, i)
  {}

  lemma WitnessIsPrompt(l: Limits, ip: string, delay: Time)
    requires l.burst > 0 && delay <= IDLE
    ensures Timed(Witness(l, ip, delay) + [LastAsk(l, ip)])
    ensures Prompt(Witness(l, ip, delay) + [LastAsk(l, ip)], delay)
  {
    hide Witness, LastAsk;
    WitnessIs(l, ip, delay);
    var all := Witness(l, ip, delay) + [LastAsk(l, ip)];
    forall q | 0 <= q < |all| && all[q].Ask? ensures Follows(all, q, delay) {
      assert all[all[q].look] == WitnessAt(l, ip, delay, all[q].look);
    }
  }

  /** The burst empties the bucket. */
  lemma Emptied(l: Limits, evicts: bool, ip: string, delay: Time)
    requires l.burst > 0
    ensures
      var table := TableAfter(l, evicts, FirstBurst(l, ip, delay));
      && ip in table && table[ip].lastSeen == 0
      && table[ip].bucket.last <= delay && Available(l, table[ip].bucket, delay) == 0
  {
    hide Available;
    FreshIsFull(l, delay);
    LooksKeep(l, evicts, map[], l.burst, ip, 0);
    AfterConcat(l, evicts, map[], Looks(l.burst, ip, 0), Asks(l.burst, ip, delay, 0));
    AsksTake(l, evicts, AfterLook(l, map[], ip, 0), l.burst, ip, delay, 0);
    LeftIs(Capacity(l), l.burst);
  }

  /** What the returning requests find: a fresh bucket, or an old one that has not refilled. */
  lemma Returning(l: Limits, evicts: bool, ip: string, delay: Time)
    requires l.burst > 0 && delay <= IDLE && !RefillsWhileIdle(l, delay)
    ensures
      var table := AfterAll(l, evicts, TableAfter(l, evicts, FirstBurst(l, ip, delay)),
                            [Sweep(ip, IDLE + 1)] + Looks(l.burst, ip, IDLE + 1));
      && ip in table && table[ip].bucket.last <= IDLE + 1
      && (Available(l, table[ip].bucket, IDLE + 1) == Capacity(l) <==> evicts)
  {
    hide FirstBurst, Looks;
    var table := TableAfter(l, evicts, FirstBurst(l, ip, delay));
    var sweep := Sweep(ip, IDLE + 1);
    Emptied(l, evicts, ip, delay);
    FreshIsFull(l, IDLE + 1);
    AfterConcat(l, evicts, table, [sweep], Looks(l.burst, ip, IDLE + 1));
    assert [sweep][..0] == [];
    LooksKeep(l, evicts, After(l, evicts, table, sweep), l.burst, ip, IDLE + 1);
    RefillGrows(l, table[ip].bucket, delay, IDLE + 1);
  }

  /** The last request of the witness is let through by the table that evicts, and refused by the one that does not. */
  lemma EvictionSeen(l: Limits, evicts: bool, ip: string, delay: Time)
    requires l.burst > 0 && delay <= IDLE && !RefillsWhileIdle(l, delay)
    ensures Answer(l, evicts, Witness(l, ip, delay), ip, IDLE + 1) <==> evicts
  {
    hide RefillsWhileIdle, FirstBurst, Looks, Asks, Available;
    var back := [Sweep(ip, IDLE + 1)] + Looks(l.burst, ip, IDLE + 1);
    var asks := Asks(l.burst - 1, ip, IDLE + 1, 2 * l.burst + 1);
    var table := AfterAll(l, evicts, TableAfter(l, evicts, FirstBurst(l, ip, delay)), back);
    Returning(l, evicts, ip, delay);
    AfterConcat(l, evicts, map[], FirstBurst(l, ip, delay), back + asks);
    AfterConcat(l, evicts, TableAfter(l, evicts, FirstBurst(l, ip, delay)), back, asks);
    AsksTake(l, evicts, table, l.burst - 1, ip, IDLE + 1, 2 * l.burst + 1);
    AtMostFull(l, table[ip].bucket, IDLE + 1);
    LeftIs(Available(l, table[ip].bucket, IDLE + 1), l.burst - 1);
  }

  lemma AtMostFull(l: Limits, b: Bucket, now: Time)
    ensures Available(l, b, now) <= l.burst * NANO
  {}

  /** When every request asks within `delay` of looking, eviction is unobservable if and only if ten idle minutes less
      that delay refill an empty bucket. */
  lemma EvictionUnobservableIff(l: Limits, delay: Time)
    requires delay <= 600_000_000_000
    ensures EvictionUnobservable(l, delay) <==> l.burst * 1_000_000_000 <= l.rps * (600_000_000_001 - delay)
  {
    hide Answer, Timed, Prompt, Witness, LastAsk, After, AfterAll;
    if RefillsWhileIdle(l, delay) {
      forall es, e: Traffic | e.Ask? && Timed(es + [e]) && Prompt(es + [e], delay)
        ensures Answer(l, true, es, e.ip, e.at) <==> Answer(l, false, es, e.ip, e.at)
      {
        SameAnswer(l, es, e, delay);
      }
    } else {
      NotFreeOfCharge(l, delay);
      WitnessIsPrompt(l, "", delay);
      EvictionSeen(l, true, "", delay);
      EvictionSeen(l, false, "", delay);
      LastAskIs(l, "");
    }
  }

  lemma NotFreeOfCharge(l: Limits, delay: Time)
    requires delay <= IDLE && !RefillsWhileIdle(l, delay)
    ensures l.burst > 0
  {
    assert l.rps * (IDLE + 1 - delay) >= 0;
  }

  lemma LastAskIs(l: Limits, ip: string)
    requires l.burst > 0
    ensures LastAsk(l, ip).Ask? && LastAsk(l, ip).ip == ip && LastAsk(l, ip).at == IDLE + 1
  {}

  /** The condition in requests and seconds for requests that ask at once, below a billion requests per second. */
  lemma RefillCondition(l: Limits)
    requires l.rps < 1_000_000_000
    ensures RefillsWhileIdle(l, 0) <==> l.burst <= 600 * l.rps
  {
    assert l.rps * (IDLE + 1) == 600 * l.rps * NANO + l.rps;
    if l.burst <= 600 * l.rps {
      assert l.burst * NANO <= 600 * l.rps * NANO;
    } else {
      assert (600 * l.rps + 1) * NANO <= l.burst * NANO;
    }
  }

  /** The deployed limits meet it even for requests that take the server's whole ten-second write timeout to ask. */
  lemma DeployedLimitsRefill()
    ensures RefillsWhileIdle(Limits(800, 300), 10_000_000_000)
  {}

  // ---- Admission -----------------------------------------------------------

  /** How many of the address's requests are admitted from position `from` of the trace on. */
  function Admitted(l: Limits, evicts: bool, es: seq<Traffic>, ip: string, from: nat): nat
    decreases |es|
  {
    if |es| <= from then 0
    else
      var front, last := es[..|es| - 1], es[|es| - 1];
      Admitted(l, evicts, front, ip, from)
      + if last.Ask? && last.ip == ip && Answer(l, evicts, front, ip, last.at) then 1 else 0
  }

  lemma {:induction false} BucketsPast(l: Limits, evicts: bool, es: seq<Traffic>, ip: string)
    requires Timed(es)
    ensures BucketOf(l, TableAfter(l, evicts, es), ip).last <= TimeOf(es)
    decreases |es|
  {
    hide Available, Allows;
    if es != [] {
      var front, last := es[..|es| - 1], es[|es| - 1];
      assert es == front + [last];
      TimedPrefix(front, last);
      BucketsPast(l, evicts, front, ip);
    }
  }

  lemma KeepingBucket(l: Limits, es: seq<Traffic>, e: Traffic, ip: string, delay: Time)
    requires Timed(es + [e]) && Prompt(es + [e], delay) && delay <= IDLE
    ensures
      var b := BucketOf(l, TableAfter(l, false, es), ip);
      BucketOf(l, TableAfter(l, false, es + [e]), ip) == if e.Ask? && e.ip == ip then Taken(l, b, e.at) else b
  {
    hide Timed, Prompt, Taken, Fresh;
    AfterSnoc(l, false, map[], es, e);
    if e.Ask? { AskedIsPresent(l, false, es, e, delay); }
  }

  lemma WindowStarts(es: seq<Traffic>, from: nat)
    requires Timed(es) && from < |es|
    ensures es[from].at <= es[|es| - 1].at
  {}

  lemma NothingYet(l: Limits, b: Bucket, start: Time, now: Time)
    requires start <= now
    ensures Available(l, b, now) <= Capacity(l) + l.rps * (now - start)
  {
    assert l.rps * (now - start) >= 0;
  }

  /** What has been admitted since `start`, plus what could be admitted now, is at most a burst and the refill. */
  lemma {:induction false} AdmittedWithReserve(l: Limits, es: seq<Traffic>, ip: string, from: nat,
                                               start: Time, now: Time, delay: Time)
    requires Timed(es) && Prompt(es, delay) && delay <= IDLE
    requires from <= |es| && TimeOf(es) <= now && start <= now
    requires from < |es| ==> start <= es[from].at
    ensures Admitted(l, false, es, ip, from) * NANO + Available(l, BucketOf(l, TableAfter(l, false, es), ip), now)
         <= Capacity(l) + l.rps * (now - start)
    decreases |es|
  {
    hide Available, Taken, Capacity, Allows, Timed, Prompt, TableAfter, BucketOf;
    if |es| <= from {
      NothingYet(l, BucketOf(l, TableAfter(l, false, es), ip), start, now);
    } else {
      var front, last := es[..|es| - 1], es[|es| - 1];
      assert es == front + [last];
      TimedPrefix(front, last);
      PromptPrefix(front, last, delay);
      WindowStarts(es, from);
      AdmittedWithReserve(l, front, ip, from, start, last.at, delay);
      BucketsPast(l, false, front, ip);
      KeepingBucket(l, front, last, ip, delay);
      ReserveStep(l, BucketOf(l, TableAfter(l, false, front), ip), last.Ask? && last.ip == ip,
                  Admitted(l, false, front, ip, from), start, last.at, now);
    }
  }

  /** One event of the trace, seen from the address's bucket. */
  lemma ReserveStep(l: Limits, b: Bucket, own: bool, n: nat, start: Time, at: Time, now: Time)
    requires b.last <= at && start <= at <= now
    requires n * NANO + Available(l, b, at) <= Capacity(l) + l.rps * (at - start)
    ensures
      var b' := if own then Taken(l, b, at) else b;
      (n + if own && Allows(l, b, at) then 1 else 0) * NANO + Available(l, b', now)
        <= Capacity(l) + l.rps * (now - start)
  {
    hide Available, Taken, Capacity;
    var b' := if own then Taken(l, b, at) else b;
    TakeOne(l, b, at);
    RefillGrows(l, b', at, now);
    SplitRefill(l.rps, start, at, now);
    assert Left(Available(l, b, at), 1) == if Allows(l, b, at) then Available(l, b, at) - NANO else Available(l, b, at);
  }

  lemma SplitRefill(k: nat, a: Time, b: Time, c: Time)
    requires a <= b <= c
    ensures k * (b - a) + k * (c - b) == k * (c - a)
  {}

  lemma {:induction false} AdmittedSame(l: Limits, es: seq<Traffic>, ip: string, from: nat, delay: Time)
    requires delay <= IDLE && RefillsWhileIdle(l, delay) && Timed(es) && Prompt(es, delay)
    ensures Admitted(l, true, es, ip, from) == Admitted(l, false, es, ip, from)
    decreases |es|
  {
    hide Timed, Prompt, Answer, RefillsWhileIdle;
    if |es| > from {
      var front, last := es[..|es| - 1], es[|es| - 1];
      assert es == front + [last];
      TimedPrefix(front, last);
      PromptPrefix(front, last, delay);
      AdmittedSame(l, front, ip, from, delay);
      if last.Ask? { SameAnswer(l, front, last, delay); }
    }
  }

  /** Over any window of a trace, an address is admitted at most burst + rps * (seconds of the window) times, even if
      its bucket is deleted and made anew inside the window. */
  lemma AdmissionBound(l: Limits, es: seq<Traffic>, ip: string, from: nat, start: Time, end: Time, delay: Time)
    requires delay <= IDLE && RefillsWhileIdle(l, delay) && Timed(es) && Prompt(es, delay)
    requires from <= |es| && start <= end && TimeOf(es) <= end
    requires from < |es| ==> start <= es[from].at
    ensures Admitted(l, true, es, ip, from) * 1_000_000_000 <= l.burst * 1_000_000_000 + l.rps * (end - start)
  {
    hide Timed, Prompt, RefillsWhileIdle, Available, TableAfter, Admitted;
    AdmittedSame(l, es, ip, from, delay);
    AdmittedWithReserve(l, es, ip, from, start, end, delay);
  }

  // ---- Addresses are independent -------------------------------------------

  /** The trace as one address sees it. */
  function SeenBy(es: seq<Traffic>, ip: string): seq<Traffic>
    decreases |es|
  {
    if es == [] then []
    else
      var last := es[|es| - 1];
      SeenBy(es[..|es| - 1], ip) + if last.ip == ip then [last] else []
  }

  lemma {:induction false} OnlyOwnTraffic(l: Limits, evicts: bool, es: seq<Traffic>, ip: string)
    ensures
      var a, b := TableAfter(l, evicts, es), TableAfter(l, evicts, SeenBy(es, ip));
      (ip in a <==> ip in b) && (ip in a ==> a[ip] == b[ip])
    decreases |es|
  {
    hide Taken, Fresh;
    if es != [] {
      var front, last := es[..|es| - 1], es[|es| - 1];
      OnlyOwnTraffic(l, evicts, front, ip);
      if last.ip == ip {
        AfterSnoc(l, evicts, map[], SeenBy(front, ip), last);
      } else {
        assert SeenBy(es, ip) == SeenBy(front, ip);
      }
    }
  }

  /** Other addresses' requests never change an address's answers. */
  lemma AddressesAreIndependent(l: Limits, evicts: bool, es: seq<Traffic>, ip: string, at: Time)
    ensures Answer(l, evicts, es, ip, at) <==> Answer(l, evicts, SeenBy(es, ip), ip, at)
  {
    OnlyOwnTraffic(l, evicts, es, ip);
  }

  // ---- Retention -----------------------------------------------------------

  function LastLook(es: seq<Traffic>, ip: string): Option<Time>
    decreases |es|
  {
    if es == [] then None
    else if es[|es| - 1].Look? && es[|es| - 1].ip == ip then Some(es[|es| - 1].at)
    else LastLook(es[..|es| - 1], ip)
  }

  /** The latest visit of a cleanup to the address, or 0. */
  function LastSweep(es: seq<Traffic>, ip: string): Time
    decreases |es|
  {
    if es == [] then 0
    else if es[|es| - 1].Sweep? && es[|es| - 1].ip == ip then es[|es| - 1].at
    else LastSweep(es[..|es| - 1], ip)
  }

  /** An entry carries its address's last request; what is missing was idle when it was last visited. */
  lemma {:induction false} EntriesAreLastLooks(l: Limits, es: seq<Traffic>, ip: string)
    requires Timed(es)
    ensures
      var table := TableAfter(l, true, es);
      && LastSweep(es, ip) <= TimeOf(es)
      && (ip in table ==>
            LastLook(es, ip) == Some(table[ip].lastSeen) && LastSweep(es, ip) <= table[ip].lastSeen + IDLE)
      && (ip !in table && LastLook(es, ip).Some? ==> LastLook(es, ip).value + IDLE < LastSweep(es, ip))
    decreases |es|
  {
    hide Taken, Fresh;
    if es != [] {
      var front, last := es[..|es| - 1], es[|es| - 1];
      assert es == front + [last];
      TimedPrefix(front, last);
      EntriesAreLastLooks(l, front, ip);
    }
  }

  /** A cleanup's visit leaves an address exactly if its last request is at most ten minutes old. */
  lemma CleanupKeepsExactly(l: Limits, es: seq<Traffic>, at: Time, ip: string)
    requires Timed(es + [Sweep(ip, at)])
    ensures ip in TableAfter(l, true, es + [Sweep(ip, at)])
       <==> LastLook(es, ip).Some? && at <= LastLook(es, ip).value + 600_000_000_000
  {
    hide Timed, TableAfter;
    var all := es + [Sweep(ip, at)];
    assert all[..|es|] == es;
    EntriesAreLastLooks(l, all, ip);
  }

  /** A cleanup that began at position `p` of the trace has visited every entry it found. */
  ghost predicate Visited(l: Limits, es: seq<Traffic>, p: nat)
    requires p < |es|
  {
    forall ip :: ip in TableAfter(l, true, es[..p]) ==> exists q :: p <= q < |es| && es[q].Sweep? && es[q].ip == ip
  }

  lemma {:induction false} LastSweepIsLate(es: seq<Traffic>, q: nat)
    requires Timed(es) && q < |es| && es[q].Sweep?
    ensures es[q].at <= LastSweep(es, es[q].ip)
    decreases |es|
  {
    if q < |es| - 1 {
      assert es == es[..|es| - 1] + [es[|es| - 1]];
      TimedPrefix(es[..|es| - 1], es[|es| - 1]);
      LastSweepIsLate(es[..|es| - 1], q);
    }
  }

  /** An entry that was not there at position `p` has been looked up since. */
  lemma {:induction false} NewSince(l: Limits, es: seq<Traffic>, p: nat, ip: string)
    requires Timed(es) && p < |es| && ip !in TableAfter(l, true, es[..p]) && ip in TableAfter(l, true, es)
    ensures es[p].at <= TableAfter(l, true, es)[ip].lastSeen
    decreases |es|
  {
    hide Taken, Fresh;
    var front, last := es[..|es| - 1], es[|es| - 1];
    assert es == front + [last];
    TimedPrefix(front, last);
    assert p == |front| ==> es[..p] == front;
    if p < |front| && ip in TableAfter(l, true, front) {
      assert es[..p] == front[..p];
      NewSince(l, front, p, ip);
    }
  }

  /** While the last full cleanup began at most five minutes ago, whatever is in the table was used in the last
      fifteen. */
  lemma EntriesAreRecent(l: Limits, es: seq<Traffic>, p: nat, now: Time, ip: string)
    requires Timed(es) && p < |es| && Visited(l, es, p) && TimeOf(es) <= now <= es[p].at + 300_000_000_000
    requires ip in TableAfter(l, true, es)
    ensures now <= TableAfter(l, true, es)[ip].lastSeen + 900_000_000_000
    ensures LastLook(es, ip) == Some(TableAfter(l, true, es)[ip].lastSeen)
  {
    hide TableAfter;
    EntriesAreLastLooks(l, es, ip);
    if ip in TableAfter(l, true, es[..p]) {
      var q :| p <= q < |es| && es[q].Sweep? && es[q].ip == ip;
      LastSweepIsLate(es, q);
    } else {
      NewSince(l, es, p, ip);
    }
  }
}

/** What an idempotency key buys, for one user `u` and one key `k`. */
module Idempotency {
  import opened Domain
  import opened Stores
  import opened Protocol
  import opened Frames
  import opened Traces
  import opened References

  predicate Mine(s: State, h: nat, u: UserId, k: string) {
    h < |s.handlers| && s.handlers[h].req.user == u && s.handlers[h].req.key == k
  }

  predicate Active(pc: HandlerPc) {
    !pc.Replied? && !pc.Died?
  }

  // ---- What is counted -----------------------------------------------------

  predicate Publishes(s: State, e: Event, u: UserId, k: string) {
    e.OnHandler? && e.he.DoPublish? && Mine(s, e.h, u, k) && s.handlers[e.h].pc.Publish?
  }

  predicate Sets(s: State, e: Event, u: UserId, k: string) {
    e.OnHandler? && e.he.DoSetKey? && Mine(s, e.h, u, k) && s.handlers[e.h].pc.SetKey?
  }

  predicate Gets(s: State, e: Event, u: UserId, k: string) {
    e.OnHandler? && e.he.DoCheckKey? && Mine(s, e.h, u, k) && s.handlers[e.h].pc.CheckKey?
  }

  /** Calls of `Publish`, successful or not, for the key among the first `i` steps. */
  ghost function Publications(tr: seq<State>, es: seq<Event>, i: nat, u: UserId, k: string): nat
    requires |tr| == |es| + 1 && i <= |es|
  {
    if i == 0 then 0
    else Publications(tr, es, i - 1, u, k) + if Publishes(tr[i - 1], es[i - 1], u, k) then 1 else 0
  }

  /** Redis would find the key. */
  predicate KeyUp(s: State, u: UserId, k: string) {
    Live(s.cache, IdempotencyKey(u, k), s.clock)
  }

  /** The step loses the key: its lookup or its Set fails, or it is evicted or expires. */
  predicate Breaks(s: State, e: Event, u: UserId, k: string) {
    || (Gets(s, e, u, k) && !e.he.ok)
    || (Sets(s, e, u, k) && !e.he.ok)
    || (e.Evict? && e.key == IdempotencyKey(u, k) && KeyUp(s, u, k))
    || (e.Tick? && KeyUp(s, u, k) && s.clock + e.d > s.cache[IdempotencyKey(u, k)].exp)
  }

  /** The client sends a request with the key while an earlier one is still in progress. */
  predicate Overlaps(s: State, e: Event, u: UserId, k: string) {
    e.Post? && Bound(e.req) && e.req.user == u && e.req.key == k && Tally(s.handlers, h => Underway(h, u, k)) > 0
  }

  /** Lost keys and overlapping requests among the first `i` steps. */
  ghost function Excuses(tr: seq<State>, es: seq<Event>, i: nat, u: UserId, k: string): nat
    requires |tr| == |es| + 1 && i <= |es|
  {
    if i == 0 then 0
    else
      Excuses(tr, es, i - 1, u, k)
      + if Breaks(tr[i - 1], es[i - 1], u, k) || Overlaps(tr[i - 1], es[i - 1], u, k) then 1 else 0
  }

  // ---- Counting handlers ---------------------------------------------------

  function Tally(hs: seq<Handler>, p: Handler -> bool): nat
    decreases |hs|
  {
    if hs == [] then 0 else Tally(hs[..|hs| - 1], p) + One(p(hs[|hs| - 1]))
  }

  function One(b: bool): nat {
    if b then 1 else 0
  }

  predicate Of(h: Handler, u: UserId, k: string) {
    h.req.user == u && h.req.key == k
  }

  predicate Underway(h: Handler, u: UserId, k: string) {
    Of(h, u, k) && Active(h.pc)
  }

  /** Past its lookup: bound to publish unless something fails. */
  predicate PastLookup(h: Handler, u: UserId, k: string) {
    Of(h, u, k) && (h.pc.Insert? || h.pc.SetKey? || h.pc.Publish?)
  }

  predicate AtPublish(h: Handler, u: UserId, k: string) {
    Of(h, u, k) && h.pc.Publish?
  }

  predicate AtInsert(h: Handler, u: UserId, k: string) {
    Of(h, u, k) && h.pc.Insert?
  }

  lemma {:induction false} TallyUpdate(hs: seq<Handler>, h: nat, x: Handler, p: Handler -> bool)
    requires h < |hs|
    ensures Tally(hs[h := x], p) == Tally(hs, p) - One(p(hs[h])) + One(p(x))
    ensures Tally(hs, p) >= One(p(hs[h]))
    decreases |hs|
  {
    var n := |hs| - 1;
    if h == n {
      assert hs[h := x][..n] == hs[..n];
    } else {
      assert hs[h := x][..n] == hs[..n][h := x];
      TallyUpdate(hs[..n], h, x, p);
    }
  }

  lemma TallySnoc(hs: seq<Handler>, x: Handler, p: Handler -> bool)
    ensures Tally(hs + [x], p) == Tally(hs, p) + One(p(x))
  {
    assert (hs + [x])[..|hs|] == hs;
  }

  lemma {:induction false} TallyLess(hs: seq<Handler>, p: Handler -> bool, q: Handler -> bool)
    requires forall h :: p(h) ==> q(h)
    ensures Tally(hs, p) <= Tally(hs, q)
    decreases |hs|
  {
    if hs != [] { TallyLess(hs[..|hs| - 1], p, q); }
  }

  // ---- One message per key -------------------------------------------------

  /** `x` excuses have been seen and `p` messages published.  While Redis would find the key, only requests past their
      lookup can still publish; while it would not, every request in progress can, and one that is about to publish
      without its key being found has an excuse of its own. */
  ghost predicate KeyInv(s: State, p: nat, x: nat, u: UserId, k: string) {
    var a := Tally(s.handlers, h => Underway(h, u, k));
    var w := Tally(s.handlers, h => PastLookup(h, u, k));
    var q := Tally(s.handlers, h => AtPublish(h, u, k));
    KeySums(KeyUp(s, u, k), a, w, q, p, x)
  }

  predicate KeySums(up: bool, a: nat, w: nat, q: nat, p: nat, x: nat) {
    && q <= w <= a
    && if up then p + 1 <= 2 + x && p + a <= 2 + x && (w > 0 ==> p + a <= 1 + x)
       else p + 1 <= 1 + x && p + a <= 1 + x && (q > 0 ==> p + a <= x)
  }

  /** All that a step of a handler can do to one key: what a request of the key moves on to, and on what condition. */
  ghost predicate KeyStep(s: State, s': State, h: nat, e: HandlerEvent, u: UserId, k: string) {
    && h < |s.handlers| && s'.clock == s.clock
    && |s'.handlers| == |s.handlers| && s'.handlers == s.handlers[h := s'.handlers[h]]
    && s'.handlers[h].req == s.handlers[h].req
    && (KeyUp(s', u, k) <==> KeyUp(s, u, k) || (Sets(s, OnHandler(h, e), u, k) && e.ok))
    && (Mine(s, h, u, k) && s'.handlers[h].pc != s.handlers[h].pc ==>
          var pc, pc' := s.handlers[h].pc, s'.handlers[h].pc;
          && Active(pc)
          && (pc'.Insert? ==> Gets(s, OnHandler(h, e), u, k) && (!KeyUp(s, u, k) || !e.ok))
          && (pc'.SetKey? ==> pc.Insert?)
          && (pc'.Publish? ==> Sets(s, OnHandler(h, e), u, k)))
    && (Publishes(s, OnHandler(h, e), u, k) ==> !Active(s'.handlers[h].pc))
    && (Sets(s, OnHandler(h, e), u, k) ==> s'.handlers[h].pc.Publish?)
  }

  lemma HandlerKeyStep(s: State, h: nat, e: HandlerEvent, u: UserId, k: string)
    requires h < |s.handlers| && k != ""
    requires IdempotencyKey(u, k) in s.cache ==> s.cache[IdempotencyKey(u, k)].val.IdVal?
    ensures KeyStep(s, StepHandler(s, h, e), h, e, u, k)
  {
    hide Insertable, InsertRow, UserActive, QueueFull, MessageOf;
    HandlerFrame(s, h, e);
    match e {
      case DoCheckUser(_) =>
      case DoCheckKey(_) =>
      case DoInsert(_, _, _) =>
      case DoSetKey(_) =>
      case DoPublish(_) =>
      case Die =>
    }
  }

  lemma KeyHoldsId(s: State, u: UserId, k: string)
    requires ReferenceInv(s)
    ensures IdempotencyKey(u, k) in s.cache ==> s.cache[IdempotencyKey(u, k)].val.IdVal?
  {
    var key := IdempotencyKey(u, k);
    assert key in s.cache ==> ValueRefers(s.db, key, s.cache[key].val);
  }

  lemma KeyStepTallies(s: State, s': State, h: nat, e: HandlerEvent, u: UserId, k: string, p: Handler -> bool)
    requires KeyStep(s, s', h, e, u, k)
    ensures Tally(s'.handlers, p) == Tally(s.handlers, p) - One(p(s.handlers[h])) + One(p(s'.handlers[h]))
    ensures Tally(s.handlers, p) >= One(p(s.handlers[h]))
  {
    TallyUpdate(s.handlers, h, s'.handlers[h], p);
  }

  lemma KeyStepKeeps(s: State, s': State, h: nat, e: HandlerEvent, p: nat, x: nat, u: UserId, k: string)
    requires KeyInv(s, p, x, u, k) && KeyStep(s, s', h, e, u, k)
    ensures KeyInv(s', p + One(Publishes(s, OnHandler(h, e), u, k)), x + One(Breaks(s, OnHandler(h, e), u, k)), u, k)
  {
    hide Tally, KeyUp;
    KeyStepTallies(s, s', h, e, u, k, h => Underway(h, u, k));
    KeyStepTallies(s, s', h, e, u, k, h => PastLookup(h, u, k));
    KeyStepTallies(s, s', h, e, u, k, h => AtPublish(h, u, k));
    TallyLess(s'.handlers, h => AtPublish(h, u, k), h => PastLookup(h, u, k));
    TallyLess(s'.handlers, h => PastLookup(h, u, k), h => Underway(h, u, k));
  }

  /** Consumers, readers and synchronous requests never touch an idempotency key. */
  lemma OthersLeaveKeys(s: State, e: Event, key: Key)
    requires ReferenceInv(s) && key.IdempotencyKey? && !e.OnHandler? && !e.Evict?
    ensures key in s.cache <==> key in Step(s, e).cache
    ensures key in s.cache ==> Step(s, e).cache[key] == s.cache[key]
  {
    hide StepHandler, StepConsumer, StepSync;
    match e
    case OnConsumer(c, ce) => if c < |s.consumers| { ConsumerStores(s, c, ce); }
    case OnSync(v, ve) => if v < |s.syncs| { SyncFrame(s, v, ve); }
    case OnReader(r, re) => if r < |s.readers| { assert ReaderRefers(s.db, s.readers[r]); }
    case _ =>
  }

  lemma OthersLeaveHandlers(s: State, e: Event)
    requires !e.OnHandler? && !e.Post?
    ensures Next(s, e).handlers == s.handlers
    ensures !e.Tick? ==> Next(s, e).clock == s.clock
  {
    hide StepHandler, StepConsumer, StepSync, StepReader;
    match e
    case OnConsumer(c, ce) => if c < |s.consumers| { ConsumerFrame(s, c, ce); }
    case OnSync(v, ve) => if v < |s.syncs| { SyncFrame(s, v, ve); }
    case OnReader(r, re) => if r < |s.readers| { ReaderFrame(s, r, re); }
    case _ =>
  }

  lemma PostKey(s: State, req: Request, p: nat, x: nat, u: UserId, k: string)
    requires KeyInv(s, p, x, u, k)
    ensures KeyInv(Next(s, Post(req)), p, x + One(Overlaps(s, Post(req), u, k)), u, k)
  {
    hide Tally;
    var arrived := Handler(req, if Bound(req) then CheckUser else Replied(BadRequest));
    TallySnoc(s.handlers, arrived, h => Underway(h, u, k));
    TallySnoc(s.handlers, arrived, h => PastLookup(h, u, k));
    TallySnoc(s.handlers, arrived, h => AtPublish(h, u, k));
  }

  /** Steps of others, eviction and time: the key may go down, with an excuse, but never comes up. */
  lemma KeyMayFall(s: State, s': State, p: nat, x: nat, x': nat, u: UserId, k: string)
    requires KeyInv(s, p, x, u, k) && s'.handlers == s.handlers && x <= x'
    requires KeyUp(s', u, k) ==> KeyUp(s, u, k)
    requires KeyUp(s, u, k) && !KeyUp(s', u, k) ==> x < x'
    ensures KeyInv(s', p, x', u, k)
  {
    hide Tally, KeyUp;
  }

  lemma KeyKept(s: State, e: Event, p: nat, x: nat, u: UserId, k: string)
    requires KeyInv(s, p, x, u, k) && ReferenceInv(s) && k != ""
    ensures KeyInv(Next(s, e), p + One(Publishes(s, e, u, k)),
              x + One(Breaks(s, e, u, k) || Overlaps(s, e, u, k)), u, k)
  {
    hide StepHandler, StepConsumer, StepSync, StepReader, ReferenceInv, KeyInv, KeyStep, Tally;
    match e
    case OnHandler(h, he) =>
      if h < |s.handlers| {
        KeyHoldsId(s, u, k);
        HandlerKeyStep(s, h, he, u, k);
        KeyStepKeeps(s, StepHandler(s, h, he), h, he, p, x, u, k);
        var p', x' := p + One(Publishes(s, e, u, k)), x + One(Breaks(s, e, u, k));
        KeyMayFall(StepHandler(s, h, he), Next(s, e), p', x', x', u, k);
      } else {
        KeyMayFall(s, Next(s, e), p, x, x, u, k);
      }
    case Post(req) => PostKey(s, req, p, x, u, k);
    case Evict(_) => KeyMayFall(s, Next(s, e), p, x, x + One(Breaks(s, e, u, k)), u, k);
    case Tick(d) => KeyMayFall(s, Next(s, e), p, x, x + One(Breaks(s, e, u, k)), u, k);
    case _ =>
      OthersLeaveKeys(s, e, IdempotencyKey(u, k));
      OthersLeaveHandlers(s, e);
      KeyMayFall(s, Next(s, e), p, x, x, u, k);
  }

  lemma {:induction false} KeyHolds(tr: seq<State>, es: seq<Event>, i: nat, u: UserId, k: string)
    requires Behavior(tr, es) && i <= |es| && k != ""
    ensures KeyInv(tr[i], Publications(tr, es, i, u, k), Excuses(tr, es, i, u, k), u, k)
    decreases i
  {
    hide Next, Publishes, Breaks, Overlaps, Initial, KeyInv;
    if i > 0 {
      KeyHolds(tr, es, i - 1, u, k);
      ReferencesHold(tr, es, i - 1);
      KeyKept(tr[i - 1], es[i - 1], Publications(tr, es, i - 1, u, k), Excuses(tr, es, i - 1, u, k), u, k);
      assert tr[i - 1 + 1] == Next(tr[i - 1], es[i - 1]);
    } else {
      NoKeyYet(tr[0], u, k);
    }
  }

  lemma NoKeyYet(s: State, u: UserId, k: string)
    requires Initial(s)
    ensures KeyInv(s, 0, 0, u, k)
  {}

  /** In every run, whatever handlers die and whatever Redis does, a key's requests call Publish at most once, and once
      more for each time its lookup or Set fails, it is evicted or expires, or a request overlaps an earlier one. */
  lemma PublicationsCounted(tr: seq<State>, es: seq<Event>, i: nat, u: UserId, k: string)
    requires Behavior(tr, es) && i <= |es| && k != ""
    ensures Publications(tr, es, i, u, k) <= 1 + Excuses(tr, es, i, u, k)
  {
    KeyHolds(tr, es, i, u, k);
  }

  // ---- The well-behaved case -----------------------------------------------

  /** The key is not evicted, and Redis answers the key's own requests. */
  predicate Undisturbed(s: State, e: Event, u: UserId, k: string) {
    && (e.Evict? ==> e.key != IdempotencyKey(u, k))
    && (e.OnHandler? && Mine(s, e.h, u, k) ==> (e.he.DoCheckKey? ==> e.he.ok) && (e.he.DoSetKey? ==> e.he.ok))
  }

  /** Nor does it expire. */
  predicate CacheHolds(s: State, e: Event, u: UserId, k: string) {
    && Undisturbed(s, e, u, k)
    && (e.Tick? && IdempotencyKey(u, k) in s.cache ==> s.clock + e.d <= s.cache[IdempotencyKey(u, k)].exp)
  }

  /** The client waits for one request with the key to end before it sends the next. */
  ghost predicate NoOverlap(s: State, e: Event, u: UserId, k: string) {
    e.Post? && e.req.user == u && e.req.key == k ==> forall h: nat | Mine(s, h, u, k) :: !Active(s.handlers[h].pc)
  }

  lemma {:induction false} NoneCounted(hs: seq<Handler>, p: Handler -> bool)
    requires forall h :: 0 <= h < |hs| ==> !p(hs[h])
    ensures Tally(hs, p) == 0
    decreases |hs|
  {
    if hs != [] { NoneCounted(hs[..|hs| - 1], p); }
  }

  lemma {:induction false} NoExcuses(tr: seq<State>, es: seq<Event>, i: nat, u: UserId, k: string)
    requires |tr| == |es| + 1 && i <= |es|
    requires forall j :: 0 <= j < i ==> CacheHolds(tr[j], es[j], u, k) && NoOverlap(tr[j], es[j], u, k)
    ensures Excuses(tr, es, i, u, k) == 0
    decreases i
  {
    if i > 0 {
      NoExcuses(tr, es, i - 1, u, k);
      var s, e := tr[i - 1], es[i - 1];
      assert CacheHolds(s, e, u, k) && NoOverlap(s, e, u, k);
      if e.Post? && e.req.user == u && e.req.key == k {
        forall h | 0 <= h < |s.handlers| ensures !Underway(s.handlers[h], u, k) {
          assert Of(s.handlers[h], u, k) ==> Mine(s, h, u, k);
        }
        NoneCounted(s.handlers, h => Underway(h, u, k));
      }
    }
  }

  // ---- How long a key lasts ------------------------------------------------

  /** An idempotency entry changes by a Set of its own key or its eviction, and by nothing else.  It lasts a day. */
  lemma KeyEntryStep(s: State, e: Event, u: UserId, k: string)
    requires ReferenceInv(s)
    ensures
      var key, s' := IdempotencyKey(u, k), Next(s, e);
      if Sets(s, e, u, k) && e.he.ok then
        && key in s'.cache && s'.cache[key].val == IdVal(s.handlers[e.h].pc.t)
        && s'.cache[key].exp == s.clock + 24 * 3600 * 1_000_000_000
      else if e == Evict(key) then key !in s'.cache
      else (key in s'.cache <==> key in s.cache) && (key in s.cache ==> s'.cache[key] == s.cache[key])
  {
    hide StepConsumer, StepSync, StepReader, ReferenceInv, HandlerInsert, HandlerPublish, HandlerCheckKey, UserActive;
    match e
    case OnHandler(h, he) => if h < |s.handlers| { HandlerFrame(s, h, he); }
    case Evict(_) =>
    case _ => OthersLeaveKeys(s, e, IdempotencyKey(u, k));
  }

  /** The step stores the id `t` under the key. */
  predicate StoresId(s: State, e: Event, u: UserId, k: string, t: TxnId) {
    Sets(s, e, u, k) && e.he.ok && s.handlers[e.h].pc.t == t
  }

  lemma {:induction false} KeyLasts(tr: seq<State>, es: seq<Event>, i: nat, j: nat, u: UserId, k: string, t: TxnId)
    requires Behavior(tr, es) && i < j <= |es| && StoresId(tr[i], es[i], u, k, t)
    requires forall n :: i < n < j ==>
               es[n] != Evict(IdempotencyKey(u, k)) && !(Sets(tr[n], es[n], u, k) && es[n].he.ok)
    ensures IdempotencyKey(u, k) in tr[j].cache
    ensures tr[j].cache[IdempotencyKey(u, k)].val == IdVal(t)
    ensures tr[j].cache[IdempotencyKey(u, k)].exp == tr[i].clock + 24 * 3600 * 1_000_000_000
    decreases j
  {
    hide Next, Initial;
    if i + 1 < j { KeyLasts(tr, es, i, j - 1, u, k, t); }
    ReferencesHold(tr, es, j - 1);
    KeyEntryStep(tr[j - 1], es[j - 1], u, k);
    assert tr[j - 1 + 1] == Next(tr[j - 1], es[j - 1]);
  }

  /** Once a key has been stored, and until it is evicted or stored again, a lookup that Redis answers ends its request
      with the stored id if and only if it comes within 24 hours of the Set; a later one lets the request go on. */
  lemma AnsweredForADay(tr: seq<State>, es: seq<Event>, i: nat, j: nat, h: nat, u: UserId, k: string, t: TxnId)
    requires Behavior(tr, es) && i < j <= |es| && StoresId(tr[i], es[i], u, k, t)
    requires forall n :: i < n < j ==>
               es[n] != Evict(IdempotencyKey(u, k)) && !(Sets(tr[n], es[n], u, k) && es[n].he.ok)
    requires h < |tr[j].handlers| && tr[j].handlers[h].pc == CheckKey
    requires tr[j].handlers[h].req.user == u && tr[j].handlers[h].req.key == k
    ensures
      var s' := Next(tr[j], OnHandler(h, DoCheckKey(true)));
      && h < |s'.handlers|
      && s'.handlers[h].pc ==
           if tr[j].clock <= tr[i].clock + 24 * 3600 * 1_000_000_000 then Replied(AlreadyProcessed(t)) else Insert
  {
    hide Initial, Execution;
    KeyLasts(tr, es, i, j, u, k, t);
  }

  /** Every lookup of the key comes within 24 hours of any Set before it. */
  ghost predicate WithinADay(tr: seq<State>, es: seq<Event>, i: nat, u: UserId, k: string)
    requires |tr| == |es| + 1 && i <= |es|
  {
    forall a, b :: 0 <= a < b < i && Sets(tr[a], es[a], u, k) && Gets(tr[b], es[b], u, k) ==>
      tr[b].clock <= tr[a].clock + 24 * 3600 * 1_000_000_000
  }

  lemma {:induction false} ExpiresADayAfterASet(tr: seq<State>, es: seq<Event>, i: nat, u: UserId, k: string)
    requires Behavior(tr, es) && i <= |es| && IdempotencyKey(u, k) in tr[i].cache
    ensures exists a :: 0 <= a < i && Sets(tr[a], es[a], u, k)
                        && tr[i].cache[IdempotencyKey(u, k)].exp == tr[a].clock + 24 * 3600 * 1_000_000_000
    decreases i
  {
    hide Next;
    if i > 0 {
      var s, e := tr[i - 1], es[i - 1];
      ReferencesHold(tr, es, i - 1);
      KeyEntryStep(s, e, u, k);
      assert tr[i - 1 + 1] == Next(s, e);
      if Sets(s, e, u, k) && e.he.ok {
        assert 0 <= i - 1 < i;
      } else {
        ExpiresADayAfterASet(tr, es, i - 1, u, k);
      }
    }
  }

  /** Up to a lookup within the day, the key has not expired. */
  lemma HeldUntilLookup(tr: seq<State>, es: seq<Event>, b: nat, u: UserId, k: string)
    requires Behavior(tr, es) && b < |es| && WithinADay(tr, es, b + 1, u, k) && Gets(tr[b], es[b], u, k)
    requires forall j :: 0 <= j <= b ==> Undisturbed(tr[j], es[j], u, k)
    ensures forall j :: 0 <= j <= b ==> CacheHolds(tr[j], es[j], u, k)
  {
    hide Step, Initial, Undisturbed, Sets;
    forall j | 0 <= j <= b ensures CacheHolds(tr[j], es[j], u, k) {
      assert Undisturbed(tr[j], es[j], u, k);
      if es[j].Tick? && IdempotencyKey(u, k) in tr[j].cache {
        ExpiresADayAfterASet(tr, es, j, u, k);
        TimeAdvances(tr, es, j + 1, b);
        TickAdds(tr[j], es[j].d);
        assert tr[j + 1] == Next(tr[j], es[j]);
      }
    }
  }

  lemma TickAdds(s: State, d: Time)
    ensures Next(s, Tick(d)).clock == s.clock + d
  {}

  /** Only a lookup adds to the requests bound to publish. */
  lemma OnlyLookupsAdd(s: State, e: Event, u: UserId, k: string)
    requires ReferenceInv(s) && k != "" && !Gets(s, e, u, k)
    ensures Tally(Next(s, e).handlers, h => PastLookup(h, u, k)) + One(Publishes(s, e, u, k))
            <= Tally(s.handlers, h => PastLookup(h, u, k))
  {
    hide StepHandler, StepConsumer, StepSync, StepReader, ReferenceInv, Tally, KeyUp;
    match e
    case OnHandler(h, he) =>
      if h < |s.handlers| {
        KeyHoldsId(s, u, k);
        HandlerKeyStep(s, h, he, u, k);
        KeyStepTallies(s, StepHandler(s, h, he), h, he, u, k, h => PastLookup(h, u, k));
      }
    case Post(req) => TallySnoc(s.handlers, Next(s, e).handlers[|s.handlers|], h => PastLookup(h, u, k));
    case _ => OthersLeaveHandlers(s, e);
  }

  lemma {:induction false} AtMostOneBound(tr: seq<State>, es: seq<Event>, i: nat, u: UserId, k: string)
    requires Behavior(tr, es) && i <= |es| && k != "" && WithinADay(tr, es, i, u, k)
    requires forall j :: 0 <= j < i ==> Undisturbed(tr[j], es[j], u, k) && NoOverlap(tr[j], es[j], u, k)
    ensures Publications(tr, es, i, u, k) + Tally(tr[i].handlers, h => PastLookup(h, u, k)) <= 1
    decreases i
  {
    hide Next, Initial, Sets, Gets, Undisturbed, NoOverlap, CacheHolds, Tally, KeyUp, Publishes;
    if i > 0 {
      var s, e := tr[i - 1], es[i - 1];
      if Gets(s, e, u, k) {
        HeldUntilLookup(tr, es, i - 1, u, k);
        NoExcuses(tr, es, i, u, k);
        KeyHolds(tr, es, i, u, k);
      } else {
        AtMostOneBound(tr, es, i - 1, u, k);
        ReferencesHold(tr, es, i - 1);
        OnlyLookupsAdd(s, e, u, k);
        assert tr[i - 1 + 1] == Next(s, e);
      }
    } else {
      KeyHolds(tr, es, 0, u, k);
    }
  }

  /** Retries that do not overlap and come within 24 hours publish at most one message for their key, wherever their
      handlers die, if the key is not evicted and Redis answers them. */
  lemma RetriesPublishOnce(tr: seq<State>, es: seq<Event>, i: nat, u: UserId, k: string)
    requires Behavior(tr, es) && i <= |es| && k != "" && WithinADay(tr, es, i, u, k)
    requires forall j :: 0 <= j < i ==> Undisturbed(tr[j], es[j], u, k) && NoOverlap(tr[j], es[j], u, k)
    ensures Publications(tr, es, i, u, k) <= 1
  {
    hide Initial, Next;
    AtMostOneBound(tr, es, i, u, k);
  }

  // ---- Overlapping duplicates ----------------------------------------------

  ghost predicate SetSeen(tr: seq<State>, es: seq<Event>, i: nat, u: UserId, k: string)
    requires |tr| == |es| + 1 && i <= |es|
  {
    exists j :: 0 <= j < i && Sets(tr[j], es[j], u, k)
  }

  /** Lookups of the key among the first `i` steps that come before its first Set. */
  ghost function EarlyGets(tr: seq<State>, es: seq<Event>, i: nat, u: UserId, k: string): nat
    requires |tr| == |es| + 1 && i <= |es|
  {
    if i == 0 then 0
    else
      EarlyGets(tr, es, i - 1, u, k)
      + if Gets(tr[i - 1], es[i - 1], u, k) && !SetSeen(tr, es, i - 1, u, k) then 1 else 0
  }

  /** Rows inserted for the key. */
  function RowsFor(accepted: seq<Accepted>, u: UserId, k: string): nat
    decreases |accepted|
  {
    if accepted == [] then 0
    else
      var a := accepted[|accepted| - 1];
      RowsFor(accepted[..|accepted| - 1], u, k) + if !a.sync && a.req.user == u && a.req.key == k then 1 else 0
  }

  lemma RowsSnoc(accepted: seq<Accepted>, a: Accepted, u: UserId, k: string)
    ensures RowsFor(accepted + [a], u, k)
         == RowsFor(accepted, u, k) + if !a.sync && a.req.user == u && a.req.key == k then 1 else 0
  {}

  /** The lookup does not end the request: it fails, or Redis does not have the key. */
  predicate Misses(s: State, e: Event, u: UserId, k: string) {
    Gets(s, e, u, k) && (!e.he.ok || !KeyUp(s, u, k))
  }

  ghost function MissedGets(tr: seq<State>, es: seq<Event>, i: nat, u: UserId, k: string): nat
    requires |tr| == |es| + 1 && i <= |es|
  {
    if i == 0 then 0 else MissedGets(tr, es, i - 1, u, k) + One(Misses(tr[i - 1], es[i - 1], u, k))
  }

  /** Every row of the key, and every handler about to insert one, has a missed lookup of its own. */
  ghost predicate DuplicateInv(s: State, missed: nat, u: UserId, k: string) {
    RowsFor(s.hist.accepted, u, k) + Tally(s.handlers, h => AtInsert(h, u, k)) <= missed
  }

  /** A row is accepted only from a handler that then no longer waits to insert. */
  lemma HandlerRowsFor(s: State, h: nat, e: HandlerEvent, u: UserId, k: string)
    requires h < |s.handlers|
    ensures
      var s' := StepHandler(s, h, e);
      && h < |s'.handlers|
      && RowsFor(s'.hist.accepted, u, k) + One(AtInsert(s'.handlers[h], u, k))
         <= RowsFor(s.hist.accepted, u, k)
            + if s'.handlers[h].pc.Insert? && !s.handlers[h].pc.Insert? then One(AtInsert(s'.handlers[h], u, k))
              else One(AtInsert(s.handlers[h], u, k))
  {
    hide RowsFor, HandlerInsert, Insertable, InsertRow;
    var s' := StepHandler(s, h, e);
    HandlerFrame(s, h, e);
    match e {
      case DoInsert(t, reference, outcome) =>
        if s.handlers[h].pc.Insert? { InsertFrame(s, h, t, reference, outcome); }
        RowsSnoc(s.hist.accepted, Accepted(t, s.handlers[h].req, false), u, k);
      case _ =>
    }
  }

  lemma HandlerDuplicates(s: State, h: nat, e: HandlerEvent, missed: nat, u: UserId, k: string)
    requires DuplicateInv(s, missed, u, k) && ReferenceInv(s) && h < |s.handlers| && k != ""
    ensures DuplicateInv(StepHandler(s, h, e), missed + One(Misses(s, OnHandler(h, e), u, k)), u, k)
  {
    hide ReferenceInv, StepHandler, Tally, RowsFor, KeyUp;
    var s' := StepHandler(s, h, e);
    KeyHoldsId(s, u, k);
    HandlerFrame(s, h, e);
    HandlerKeyStep(s, h, e, u, k);
    HandlerRowsFor(s, h, e, u, k);
    KeyStepTallies(s, s', h, e, u, k, h => AtInsert(h, u, k));
  }

  lemma SyncAccepts(s: State, v: nat, e: SyncEvent, u: UserId, k: string)
    requires v < |s.syncs|
    ensures RowsFor(StepSync(s, v, e).hist.accepted, u, k) == RowsFor(s.hist.accepted, u, k)
  {}

  lemma OthersInsertNothing(s: State, e: Event, u: UserId, k: string)
    requires !e.OnHandler?
    ensures RowsFor(Next(s, e).hist.accepted, u, k) == RowsFor(s.hist.accepted, u, k)
  {
    hide StepHandler, StepConsumer, StepSync, StepReader, RowsFor;
    match e
    case OnConsumer(c, ce) => if c < |s.consumers| { ConsumerFrame(s, c, ce); }
    case OnSync(v, ve) => if v < |s.syncs| { SyncAccepts(s, v, ve, u, k); }
    case OnReader(r, re) => if r < |s.readers| { ReaderFrame(s, r, re); }
    case _ =>
  }

  lemma DuplicatesKept(s: State, e: Event, missed: nat, u: UserId, k: string)
    requires DuplicateInv(s, missed, u, k) && ReferenceInv(s) && k != ""
    ensures DuplicateInv(Next(s, e), missed + One(Misses(s, e, u, k)), u, k)
  {
    hide StepHandler, StepConsumer, StepSync, StepReader, ReferenceInv, Tally, RowsFor, KeyUp;
    if !e.OnHandler? { OthersInsertNothing(s, e, u, k); }
    match e
    case OnHandler(h, he) => if h < |s.handlers| { HandlerDuplicates(s, h, he, missed, u, k); }
    case Post(req) =>
      TallySnoc(s.handlers, Next(s, e).handlers[|s.handlers|], h => AtInsert(h, u, k));
    case _ =>
      OthersLeaveHandlers(s, e);
  }

  lemma {:induction false} DuplicatesHold(tr: seq<State>, es: seq<Event>, i: nat, u: UserId, k: string)
    requires Behavior(tr, es) && i <= |es| && k != ""
    ensures DuplicateInv(tr[i], MissedGets(tr, es, i, u, k), u, k)
    decreases i
  {
    hide Next, Misses;
    if i > 0 {
      DuplicatesHold(tr, es, i - 1, u, k);
      ReferencesHold(tr, es, i - 1);
      DuplicatesKept(tr[i - 1], es[i - 1], MissedGets(tr, es, i - 1, u, k), u, k);
      assert tr[i - 1 + 1] == Next(tr[i - 1], es[i - 1]);
    }
  }

  /** In every run the rows inserted for a key number at most its lookups that did not end their request. */
  lemma RowsCounted(tr: seq<State>, es: seq<Event>, i: nat, u: UserId, k: string)
    requires Behavior(tr, es) && i <= |es| && k != ""
    ensures RowsFor(tr[i].hist.accepted, u, k) <= MissedGets(tr, es, i, u, k)
  {
    DuplicatesHold(tr, es, i, u, k);
  }

  /** While the cache holds, Redis has the key exactly from its first Set on. */
  lemma KeyUpKept(s: State, e: Event, isSet: bool, u: UserId, k: string)
    requires (KeyUp(s, u, k) <==> isSet) && ReferenceInv(s) && k != "" && CacheHolds(s, e, u, k)
    ensures KeyUp(Next(s, e), u, k) <==> isSet || Sets(s, e, u, k)
  {
    hide StepHandler, StepConsumer, StepSync, StepReader, ReferenceInv;
    match e
    case OnHandler(h, he) => if h < |s.handlers| { KeyHoldsId(s, u, k); HandlerKeyStep(s, h, he, u, k); }
    case Post(_) =>
    case Evict(_) =>
    case Tick(_) =>
    case _ =>
      OthersLeaveKeys(s, e, IdempotencyKey(u, k));
      OthersLeaveHandlers(s, e);
  }

  lemma {:induction false} MissesAreEarly(tr: seq<State>, es: seq<Event>, i: nat, u: UserId, k: string)
    requires Behavior(tr, es) && i <= |es| && k != ""
    requires forall j :: 0 <= j < i ==> CacheHolds(tr[j], es[j], u, k)
    ensures KeyUp(tr[i], u, k) <==> SetSeen(tr, es, i, u, k)
    ensures MissedGets(tr, es, i, u, k) == EarlyGets(tr, es, i, u, k)
    decreases i
  {
    hide Next, Sets;
    if i > 0 {
      MissesAreEarly(tr, es, i - 1, u, k);
      ReferencesHold(tr, es, i - 1);
      assert CacheHolds(tr[i - 1], es[i - 1], u, k);
      KeyUpKept(tr[i - 1], es[i - 1], SetSeen(tr, es, i - 1, u, k), u, k);
      assert tr[i - 1 + 1] == Next(tr[i - 1], es[i - 1]);
      assert SetSeen(tr, es, i, u, k) <==> SetSeen(tr, es, i - 1, u, k) || Sets(tr[i - 1], es[i - 1], u, k);
    }
  }

  lemma {:induction false} MissesWithinADay(tr: seq<State>, es: seq<Event>, i: nat, u: UserId, k: string)
    requires Behavior(tr, es) && i <= |es| && k != "" && WithinADay(tr, es, i, u, k)
    requires forall j :: 0 <= j < i ==> Undisturbed(tr[j], es[j], u, k)
    ensures MissedGets(tr, es, i, u, k) == EarlyGets(tr, es, i, u, k)
    decreases i
  {
    hide Next, Initial, Sets, Undisturbed, CacheHolds, KeyUp, SetSeen;
    if i > 0 {
      if Gets(tr[i - 1], es[i - 1], u, k) {
        HeldUntilLookup(tr, es, i - 1, u, k);
        MissesAreEarly(tr, es, i, u, k);
      } else {
        MissesWithinADay(tr, es, i - 1, u, k);
      }
    }
  }

  /** Requests with one key that overlap insert no more rows than there were lookups of the key before its first Set, if
      they come within 24 hours, the key is not evicted and Redis answers them. */
  lemma OverlapsAreBounded(tr: seq<State>, es: seq<Event>, i: nat, u: UserId, k: string)
    requires Behavior(tr, es) && i <= |es| && k != "" && WithinADay(tr, es, i, u, k)
    requires forall j :: 0 <= j < i ==> Undisturbed(tr[j], es[j], u, k)
    ensures RowsFor(tr[i].hist.accepted, u, k) <= EarlyGets(tr, es, i, u, k)
  {
    hide Next, Initial;
    RowsCounted(tr, es, i, u, k);
    MissesWithinADay(tr, es, i, u, k);
  }
}

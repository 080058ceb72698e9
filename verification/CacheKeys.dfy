/** Redis keys are strings.  For colon-free user ids, as UUIDs are, distinct keys never share a string, so the store
    keyed by strings behaves as one keyed by (family, user, transaction, idempotency key). */
module CacheKeys {
  import opened Domain
  import opened Stores

  function KeyString(k: Key): string {
    match k
    case TransactionKey(t) => "txn:" + t.text
    case BalanceKey(u) => "user:balance:" + u.text
    case IdempotencyKey(u, key) => "idempotency:" + u.text + ":" + key
  }

  predicate ColonFree(k: Key) {
    k.IdempotencyKey? ==> ':' !in k.owner.text
  }

  /** The three families start with different letters. */
  lemma FamiliesDiffer(a: Key, b: Key)
    requires KeyString(a) == KeyString(b)
    ensures a.TransactionKey? <==> b.TransactionKey?
    ensures a.BalanceKey? <==> b.BalanceKey?
  {
    assert KeyString(a)[0] == KeyString(b)[0];
  }

  lemma Drop(prefix: string, x: string, y: string)
    requires prefix + x == prefix + y
    ensures x == y
  {
    assert (prefix + x)[|prefix|..] == x;
    assert (prefix + y)[|prefix|..] == y;
  }

  /** The first colon after the family's prefix ends a colon-free user id. */
  lemma SplitAtColon(a: string, x: string, b: string, y: string)
    requires a + ":" + x == b + ":" + y && ':' !in a && ':' !in b
    ensures a == b && x == y
  {
    var s := a + ":" + x;
    assert s[|a|] == ':' && s[|b|] == ':';
    assert forall i :: 0 <= i < |a| ==> s[i] == a[i];
    assert forall i :: 0 <= i < |b| ==> s[i] == b[i];
    assert |a| == |b|;
    assert s[..|a|] == a && s[..|b|] == b;
    assert s[|a| + 1..] == x && s[|b| + 1..] == y;
  }

  lemma KeysAreInjective(a: Key, b: Key)
    requires ColonFree(a) && ColonFree(b) && KeyString(a) == KeyString(b)
    ensures a == b
  {
    FamiliesDiffer(a, b);
    match a
    case TransactionKey(t) => Drop("txn:", t.text, b.txn.text);
    case BalanceKey(u) => Drop("user:balance:", u.text, b.user.text);
    case IdempotencyKey(u, key) =>
      assert KeyString(a) == "idempotency:" + (u.text + ":" + key);
      assert KeyString(b) == "idempotency:" + (b.owner.text + ":" + b.key);
      Drop("idempotency:", u.text + ":" + key, b.owner.text + ":" + b.key);
      SplitAtColon(u.text, key, b.owner.text, b.key);
  }

  /** The two idempotency keys are cut apart differently: one owner's id is the other's, a colon, and the start of the
      other's key. */
  ghost predicate Overlaps(a: Key, b: Key) {
    && a.IdempotencyKey? && b.IdempotencyKey?
    && exists x: string :: b.owner.text == a.owner.text + ":" + x && a.key == x + ":" + b.key
  }

  lemma OverlapCollides(a: Key, b: Key)
    requires Overlaps(a, b)
    ensures KeyString(a) == KeyString(b)
  {
    var x: string :| b.owner.text == a.owner.text + ":" + x && a.key == x + ":" + b.key;
    assert "idempotency:" + a.owner.text + ":" + (x + ":" + b.key)
        == "idempotency:" + (a.owner.text + ":" + x) + ":" + b.key;
  }

  /** The shorter owner is a prefix of the longer, and a colon follows it there. */
  lemma CollisionOverlaps(a: Key, b: Key)
    requires a.IdempotencyKey? && b.IdempotencyKey? && KeyString(a) == KeyString(b)
    requires |a.owner.text| < |b.owner.text|
    ensures Overlaps(a, b)
  {
    var u, v := a.owner.text, b.owner.text;
    var s, t := u + ":" + a.key, v + ":" + b.key;
    assert s == t by {
      assert KeyString(a) == "idempotency:" + s && KeyString(b) == "idempotency:" + t;
      Drop("idempotency:", s, t);
    }
    var x := v[|u| + 1..];
    assert v == t[..|v|] == s[..|v|];
    assert v[..|u|] == u && v[|u|] == ':';
    assert v == u + ":" + x;
    assert a.key == s[|u| + 1..] == t[|u| + 1..] == x + ":" + b.key;
  }

  lemma SameOwnerSameKey(a: Key, b: Key)
    requires a.IdempotencyKey? && b.IdempotencyKey? && KeyString(a) == KeyString(b)
    requires |a.owner.text| == |b.owner.text|
    ensures a == b
  {
    assert KeyString(a) == "idempotency:" + (a.owner.text + ":" + a.key);
    assert KeyString(b) == "idempotency:" + (b.owner.text + ":" + b.key);
    var s, t := a.owner.text + ":" + a.key, b.owner.text + ":" + b.key;
    Drop("idempotency:", s, t);
    assert a.owner.text == s[..|a.owner.text|] == t[..|b.owner.text|] == b.owner.text;
    assert a.key == s[|a.owner.text| + 1..] == t[|b.owner.text| + 1..] == b.key;
  }

  /** The key builders, on any strings: two keys share a Redis key exactly if they are the same or idempotency keys that
      overlap. */
  lemma KeysCollideIff(a: Key, b: Key)
    ensures KeyString(a) == KeyString(b) <==> a == b || Overlaps(a, b) || Overlaps(b, a)
  {
    hide KeyString, Overlaps;
    if Overlaps(a, b) { OverlapCollides(a, b); }
    if Overlaps(b, a) { OverlapCollides(b, a); }
    if KeyString(a) == KeyString(b) {
      FamiliesDiffer(a, b);
      if !a.IdempotencyKey? {
        KeysAreInjective(a, b);
      } else if |a.owner.text| < |b.owner.text| {
        CollisionOverlaps(a, b);
      } else if |b.owner.text| < |a.owner.text| {
        CollisionOverlaps(b, a);
      } else {
        SameOwnerSameKey(a, b);
      }
    }
  }

  /** Two owners' keys can meet at all exactly if one id followed by a colon begins the other: never for UUIDs. */
  lemma OwnersCollideIff(u: UserId, v: UserId)
    requires u != v
    ensures (exists k, l :: KeyString(IdempotencyKey(u, k)) == KeyString(IdempotencyKey(v, l))) <==>
              u.text + ":" <= v.text || v.text + ":" <= u.text
  {
    hide KeyString;
    if k, l :| KeyString(IdempotencyKey(u, k)) == KeyString(IdempotencyKey(v, l)) {
      KeysCollideIff(IdempotencyKey(u, k), IdempotencyKey(v, l));
    }
    if u.text + ":" <= v.text { PrefixCollides(u, v); }
    if v.text + ":" <= u.text { PrefixCollides(v, u); }
  }

  lemma PrefixCollides(u: UserId, v: UserId)
    requires u.text + ":" <= v.text
    ensures KeyString(IdempotencyKey(u, v.text[|u.text| + 1..] + ":")) == KeyString(IdempotencyKey(v, ""))
  {
    hide KeyString;
    var x := v.text[|u.text| + 1..];
    assert v.text == u.text + ":" + x;
    assert x + ":" == x + ":" + "";
    OverlapCollides(IdempotencyKey(u, x + ":"), IdempotencyKey(v, ""));
  }

  /** With a colon in a user id two users' idempotency keys can meet. */
  lemma ColonsCollide(u: string, v: string, k: string)
    ensures var a, b := IdempotencyKey(UserId(u + ":" + v), k), IdempotencyKey(UserId(u), v + ":" + k);
            a != b && KeyString(a) == KeyString(b)
  {
    var a, b := IdempotencyKey(UserId(u + ":" + v), k), IdempotencyKey(UserId(u), v + ":" + k);
    assert |u + ":" + v| > |u|;
    assert Overlaps(b, a);
    KeysCollideIff(a, b);
  }

  // ---- A store keyed by strings --------------------------------------------

  datatype Item = Item(val: CacheValue, exp: Time)

  /** The string-keyed store holds what the cache holds under every colon-free key. */
  ghost predicate Represents(store: map<string, Item>, cache: Cache) {
    && (forall k :: k in cache ==> ColonFree(k))
    && (forall k :: ColonFree(k) ==> (k in cache <==> KeyString(k) in store))
    && (forall k :: k in cache ==> store[KeyString(k)] == Item(cache[k].val, cache[k].exp))
  }

  lemma SetRepresented(store: map<string, Item>, cache: Cache, k: Key, e: Entry)
    requires Represents(store, cache) && ColonFree(k)
    ensures Represents(store[KeyString(k) := Item(e.val, e.exp)], cache[k := e])
  {
    hide KeyString;
    forall j | ColonFree(j) && KeyString(j) == KeyString(k) ensures j == k { KeysAreInjective(j, k); }
  }

  lemma DeleteRepresented(store: map<string, Item>, cache: Cache, k: Key)
    requires Represents(store, cache) && ColonFree(k)
    ensures Represents(store - {KeyString(k)}, CacheDelete(cache, k))
  {
    hide KeyString;
    forall j | ColonFree(j) && KeyString(j) == KeyString(k) ensures j == k { KeysAreInjective(j, k); }
  }

  /** What `Get` finds in a string-keyed store. */
  function StoreGet(store: map<string, Item>, key: string, now: Time, ok: bool): Option<CacheValue> {
    if ok && key in store && now <= store[key].exp then Some(store[key].val) else None
  }

  lemma GetRepresented(store: map<string, Item>, cache: Cache, k: Key, now: Time, ok: bool)
    requires Represents(store, cache) && ColonFree(k)
    ensures StoreGet(store, KeyString(k), now, ok) == CacheGet(cache, k, now, ok)
  {}
}

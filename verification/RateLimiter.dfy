/** The limiter table as the service holds it: a mutex-guarded map of mutable entries (each method runs under the
    mutex, so one call is one step), proved against RateLimit. */
module RateLimiter {
  import opened Domain
  import opened RateLimit

  /** `rate.Limiter`. */
  class Limiter {
    const limits: Limits
    var tokens: nat
    var last: Time

    function State(): Bucket
      reads this
    {
      Bucket(tokens, last)
    }

    constructor (limits: Limits)
      ensures this.limits == limits && State() == Fresh(limits) && tokens == limits.burst * 1_000_000_000
    {
      this.limits := limits;
      tokens := Capacity(limits);
      last := 0;
    }

    method Allow(now: Time) returns (ok: bool)
      modifies this
      ensures
        var refilled := old(tokens) + limits.rps * if now < old(last) then 0 else now - old(last);
        var available := if refilled > limits.burst * 1_000_000_000 then limits.burst * 1_000_000_000 else refilled;
        && (ok <==> available >= 1_000_000_000)
        && tokens == (if ok then available - 1_000_000_000 else old(tokens))
        && last == (if ok then now else old(last))
      ensures ok <==> Allows(limits, old(State()), now)
      ensures State() == Taken(limits, old(State()), now)
    {
      var elapsed := if now < last then 0 else now - last;
      var t := tokens + limits.rps * elapsed;
      if t > limits.burst * NANO {
        t := limits.burst * NANO;
      }
      if t < NANO {
        return false;
      }
      tokens, last := t - NANO, now;
      return true;
    }
  }

  class IpLimiter {
    const limiter: Limiter
    var lastSeen: Time

    constructor (limiter: Limiter, now: Time)
      ensures this.limiter == limiter && lastSeen == now
    {
      this.limiter := limiter;
      lastSeen := now;
    }
  }

  /** What is left of a table when only the entries of `left` remain. */
  ghost predicate Pruned(table: Table, pruned: Table, left: set<string>) {
    left <= table.Keys && pruned == map ip | ip in left && ip in table :: table[ip]
  }

  lemma NothingPruned(l: Limits, table: Table)
    ensures Pruned(table, AfterAll(l, true, table, []), table.Keys) && Ips([]) == {}
  {}

  lemma PrunedFurther(l: Limits, table: Table, visits: seq<Traffic>, left: set<string>, ip: string, now: Time)
    requires Pruned(table, AfterAll(l, true, table, visits), left) && ip in left
    ensures Pruned(table, AfterAll(l, true, table, visits + [Sweep(ip, now)]),
              if now > table[ip].lastSeen + IDLE then left - {ip} else left)
  {
    AfterSnoc(l, true, table, visits, Sweep(ip, now));
  }

  ghost function Ips(visits: seq<Traffic>): set<string> {
    set i | 0 <= i < |visits| :: visits[i].ip
  }

  lemma IpsSnoc(visits: seq<Traffic>, e: Traffic)
    ensures Ips(visits + [e]) == Ips(visits) + {e.ip}
  {
    var more := visits + [e];
    assert more[|visits|] == e;
    forall ip | ip in Ips(visits) ensures ip in Ips(more) {
      var i :| 0 <= i < |visits| && visits[i].ip == ip;
      assert more[i] == visits[i];
    }
  }

  class LimiterTable {
    const limits: Limits
    var limiters: map<string, IpLimiter>
    ghost var Repr: set<object>

    /** No two addresses share an entry or a bucket. */
    ghost predicate Valid()
      reads this, Repr
    {
      && this in Repr
      && (forall ip :: ip in limiters ==>
            limiters[ip] in Repr && limiters[ip].limiter in Repr && limiters[ip].limiter.limits == limits)
      && (forall ip, jp :: ip in limiters && jp in limiters && ip != jp ==>
            limiters[ip] != limiters[jp] && limiters[ip].limiter != limiters[jp].limiter)
    }

    ghost function View(): Table
      requires Valid()
      reads this, Repr
    {
      map ip | ip in limiters :: Slot(limiters[ip].limiter.State(), limiters[ip].lastSeen)
    }

    constructor (limits: Limits)
      ensures Valid() && fresh(Repr) && this.limits == limits && View() == map[]
    {
      this.limits := limits;
      limiters := map[];
      Repr := {this};
    }

    /** `getLimiter`: stamps the entry, or makes one with a full bucket. */
    method GetLimiter(ip: string, now: Time) returns (l: Limiter)
      requires Valid()
      modifies Repr
      ensures Valid() && fresh(Repr - old(Repr))
      ensures ip in limiters && limiters[ip].limiter == l && l in Repr
      ensures View() == AfterLook(limits, old(View()), ip, now)
    {
      if ip in limiters {
        limiters[ip].lastSeen := now;
        assert Valid();
        return limiters[ip].limiter;
      }
      l := new Limiter(limits);
      var entry := new IpLimiter(l, now);
      limiters := limiters[ip := entry];
      Repr := Repr + {l, entry};
      assert Valid();
    }

    /** The walk visits every entry once, in any order; `view` is what the map shows. */
    method Walk(nows: seq<Time>, ghost view: Table) returns (ghost visits: seq<Traffic>)
      requires |nows| == |limiters.Keys| && view.Keys == limiters.Keys
      requires forall ip :: ip in limiters ==> limiters[ip].lastSeen == view[ip].lastSeen
      modifies `limiters
      ensures |visits| == |nows| && forall i :: 0 <= i < |visits| ==> visits[i].Sweep? && visits[i].at == nows[i]
      ensures Ips(visits) == old(limiters.Keys)
      ensures limiters.Keys <= old(limiters.Keys) && forall ip :: ip in limiters ==> limiters[ip] == old(limiters)[ip]
      ensures Pruned(view, AfterAll(limits, true, view, visits), limiters.Keys)
    {
      hide AfterAll, Pruned, Ips;
      var todo, n := limiters.Keys, 0;
      visits := [];
      NothingPruned(limits, view);
      while todo != {}
        invariant todo <= limiters.Keys <= view.Keys && |todo| + n == |nows| && |visits| == n
        invariant forall i :: 0 <= i < n ==> visits[i].Sweep? && visits[i].at == nows[i]
        invariant Ips(visits) + todo == view.Keys
        invariant forall ip :: ip in limiters ==> limiters[ip] == old(limiters)[ip]
        invariant Pruned(view, AfterAll(limits, true, view, visits), limiters.Keys)
        decreases todo
      {
        var ip :| ip in todo;
        IpsSnoc(visits, Sweep(ip, nows[n]));
        PrunedFurther(limits, view, visits, limiters.Keys, ip, nows[n]);
        visits := visits + [Sweep(ip, nows[n])];
        if nows[n] > limiters[ip].lastSeen + IDLE {
          limiters := limiters - {ip};
        }
        todo, n := todo - {ip}, n + 1;
      }
    }

    /** `cleanupLimiters`: walks the map under the mutex, reading the clock at each entry, and deletes what has been
        idle for more than ten minutes. */
    method CleanupLimiters(nows: seq<Time>) returns (ghost visits: seq<Traffic>)
      requires Valid() && |nows| == |limiters.Keys|
      modifies `limiters
      ensures Valid()
      ensures |visits| == |nows| && forall i :: 0 <= i < |visits| ==> visits[i].Sweep? && visits[i].at == nows[i]
      ensures Ips(visits) == old(limiters.Keys)
      ensures View() == AfterAll(limits, true, old(View()), visits)
    {
      hide AfterAll, Ips;
      visits := Walk(nows, View());
      assert Valid();
    }

    /** `limiter.Allow()` on the entry looked up. */
    method AllowEntry(ip: string, now: Time) returns (ok: bool)
      requires Valid() && ip in limiters
      modifies limiters[ip].limiter
      ensures Valid()
      ensures ok <==> Allows(limits, old(View())[ip].bucket, now)
      ensures View() == AfterAsk(limits, old(View()), ip, now)
    {
      hide Allows, Taken;
      ok := limiters[ip].limiter.Allow(now);
    }

    /** The middleware: one request from `ip`, which looks its limiter up under the mutex and asks it afterwards. */
    method Admit(ip: string, seen: Time, now: Time) returns (ok: bool)
      requires Valid()
      modifies Repr
      ensures Valid() && fresh(Repr - old(Repr))
      ensures ok <==> Allows(limits, BucketOf(limits, old(View()), ip), now)
      ensures View() == AfterAsk(limits, AfterLook(limits, old(View()), ip, seen), ip, now)
    {
      hide Allows, Taken, BucketOf;
      var _ := GetLimiter(ip, seen);
      ok := AllowEntry(ip, now);
    }
  }
}

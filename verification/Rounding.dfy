/** Amounts are JSON numbers; both `transactions.amount` and `users.balance` are NUMERIC(18, 2).
    The row and the balance are rounded separately, each to whole cents with ties away from zero
    (section 8.1.2 of the PostgreSQL manual).  Everything here is in cents. */
module Rounding {
  import opened Domain

  function RoundCents(x: real): int {
    if x >= 0.0 then (x + 0.5).Floor else -((-x + 0.5).Floor)
  }

  predicate HalfCent(x: real) {
    x - x.Floor as real == 0.5
  }

  /** A pass: the type and the raw amount its message carries. */
  datatype Payment = Payment(kind: Kind, raw: real)

  /** The stored `amount`; CHECK (amount > 0) refuses what rounds to zero although the binding let it through. */
  function StoredAmount(raw: real): Option<int> {
    if RoundCents(raw) > 0 then Some(RoundCents(raw)) else None
  }

  function Signed(p: Payment): real {
    match p.kind
    case Credit => p.raw
    case Debit => -p.raw
    case Transfer => -p.raw
    case Other(_) => 0.0
  }

  /** `SET balance = balance + $1`: the sum is exact, storing it rounds. */
  function Pay(balance: int, p: Payment): int {
    RoundCents(balance as real + Signed(p))
  }

  function PayAll(balance: int, ps: seq<Payment>): int
    decreases |ps|
  {
    if ps == [] then balance else Pay(PayAll(balance, ps[..|ps| - 1]), ps[|ps| - 1])
  }

  /** What the stored rows say the payments add up to. */
  function RowSum(ps: seq<Payment>): int
    decreases |ps|
  {
    if ps == [] then 0
    else RowSum(ps[..|ps| - 1]) + Delta(ps[|ps| - 1].kind, RoundCents(ps[|ps| - 1].raw))
  }

  function HalfCents(ps: seq<Payment>): nat
    decreases |ps|
  {
    if ps == [] then 0 else HalfCents(ps[..|ps| - 1]) + if HalfCent(ps[|ps| - 1].raw) then 1 else 0
  }

  /** RoundCents picks the nearest cent, and of two equally near the one away from zero. */
  lemma RoundsToNearest(x: real)
    ensures var d := x - RoundCents(x) as real; -0.5 <= d <= 0.5
    ensures x - RoundCents(x) as real == 0.5 ==> x < 0.0
    ensures RoundCents(x) as real - x == 0.5 ==> x > 0.0
  {}

  /** The binding's `gt=0` and the CHECK disagree exactly on amounts below half a cent. */
  lemma InsertRefusedIff(raw: real)
    requires raw > 0.0
    ensures StoredAmount(raw).None? <==> raw < 0.5
    ensures StoredAmount(raw).Some? ==> raw - 0.5 < StoredAmount(raw).value as real <= raw + 0.5
  {}

  /** Off by one exactly when the raw amount is a half cent and the new balance is still on the side of zero that the
      payment comes from: the row rounds away from zero, and so does the balance, which undoes the half cent. */
  function Drift(balance: int, p: Payment): int {
    var after := balance as real + Signed(p);
    if !HalfCent(p.raw) || p.kind.Other? then 0
    else if p.kind.Credit? then (if after < 0.0 then -1 else 0)
    else (if after > 0.0 then 1 else 0)
  }

  /** How far one payment parts the balance from the stored row. */
  lemma PayDrifts(balance: int, p: Payment)
    requires p.raw > 0.0
    ensures Pay(balance, p) - (balance + Delta(p.kind, RoundCents(p.raw))) == Drift(balance, p)
  {
    var f := p.raw.Floor;
    var r := p.raw - f as real;
    assert 0.0 <= r < 1.0;
    assert RoundCents(p.raw) == if r < 0.5 then f else f + 1;
    match p.kind
    case Credit => assert balance as real + Signed(p) == (balance + f) as real + r;
    case Debit => assert balance as real + Signed(p) == (balance - f) as real - r;
    case Transfer => assert balance as real + Signed(p) == (balance - f) as real - r;
    case Other(_) => assert balance as real + Signed(p) == balance as real;
  }

  function Drifts(balance: int, ps: seq<Payment>): int
    decreases |ps|
  {
    if ps == [] then 0
    else Drifts(balance, ps[..|ps| - 1]) + Drift(PayAll(balance, ps[..|ps| - 1]), ps[|ps| - 1])
  }

  /** After any passes the balance is off from what the rows add up to by exactly the drifts: the two agree if and only
      if these cancel out. */
  lemma {:induction false} BalanceOffBy(balance: int, ps: seq<Payment>)
    requires forall p :: p in ps ==> p.raw > 0.0
    ensures PayAll(balance, ps) == balance + RowSum(ps) + Drifts(balance, ps)
    decreases |ps|
  {
    hide Pay, Drift, RoundCents;
    if ps != [] {
      var front, last := ps[..|ps| - 1], ps[|ps| - 1];
      assert last in ps;
      forall p | p in front ensures p in ps {}
      BalanceOffBy(balance, front);
      PayDrifts(PayAll(balance, front), last);
    }
  }

  /** After any passes, in any order, the balance is within one cent per half-cent payment of what the rows add up to;
      without half cents the two agree. */
  lemma {:induction false} BalanceNearRows(balance: int, ps: seq<Payment>)
    requires forall p :: p in ps ==> p.raw > 0.0
    ensures 0 - HalfCents(ps) <= PayAll(balance, ps) - (balance + RowSum(ps)) <= HalfCents(ps)
    decreases |ps|
  {
    if ps != [] {
      var front, last := ps[..|ps| - 1], ps[|ps| - 1];
      assert last in ps;
      forall p | p in front ensures p in ps {}
      BalanceNearRows(balance, front);
      PayDrifts(PayAll(balance, front), last);
    }
  }

  /** Whole cents have no half cents, so rows and balance then agree exactly. */
  lemma {:induction false} WholeCentsAgree(balance: int, ps: seq<Payment>)
    requires forall p :: p in ps ==> p.raw > 0.0 && p.raw == p.raw.Floor as real
    ensures PayAll(balance, ps) == balance + RowSum(ps)
    decreases |ps|
  {
    if ps != [] {
      var front, last := ps[..|ps| - 1], ps[|ps| - 1];
      assert last in ps;
      forall p | p in front ensures p in ps {}
      WholeCentsAgree(balance, front);
      PayDrifts(PayAll(balance, front), last);
    }
  }

  /** The bound is reached: half-cent debits from a positive balance leave it where it is, one stored cent each. */
  lemma {:induction false} BoundIsReached(balance: int, ps: seq<Payment>)
    requires balance > 0 && forall p :: p in ps ==> p == Payment(Debit, 0.5)
    ensures PayAll(balance, ps) == balance && RowSum(ps) == -|ps| && HalfCents(ps) == |ps|
    decreases |ps|
  {
    if ps != [] {
      var front, last := ps[..|ps| - 1], ps[|ps| - 1];
      assert last in ps;
      forall p | p in front ensures p in ps {}
      BoundIsReached(balance, front);
      PayDrifts(balance, last);
    }
  }
}

/** The average cost of a position, moved by fills and commissions (src/bridge.rs), over exact reals. */
module Positions {
  import opened Basics

  /** Sizes are integers in this many parts of a share. */
  const QTY_SCALE: int := 100_000_000

  datatype Position = Position(size: int, cost: real)

  const Flat: Position := Position(0, 0.0)

  function Abs(q: int): int {
    if q < 0 then -q else q
  }

  function Shares(q: int): real {
    q as real / QTY_SCALE as real
  }

  /** The position after a fill of `delta` at `price`. */
  function Filled(p: Position, delta: int, price: real): Position {
    var size := p.size + delta;
    var cost :=
      if size == 0 then 0.0
      else if p.size == 0 || (p.size > 0) != (size > 0) then price
      else if (p.size > 0) == (delta > 0) then p.cost + (price - p.cost) * Shares(Abs(delta)) / Shares(Abs(size))
      else p.cost;
    Position(size, cost)
  }

  /** The position after a commission. */
  function Charged(p: Position, commission: real): Position {
    if p.size == 0 then p else p.(cost := p.cost + commission / Shares(p.size))
  }

  class PortfolioState {
    var positions: map<int, Position>
    var generation: nat

    constructor ()
      ensures positions == map[] && generation == 0
    {
      positions, generation := map[], 0;
    }

    ghost function At(contract: int): Position
      reads this
    {
      if contract in positions then positions[contract] else Flat
    }

    /** `apply_fill_to_position`. */
    method ApplyFill(contract: int, delta: int, price: real) returns (r: Option<Position>)
      modifies this
      ensures delta == 0 ==> r == None && positions == old(positions) && generation == old(generation)
      ensures delta != 0 ==> r == Some(At(contract)) && At(contract) == Filled(old(At(contract)), delta, price)
      // A fill that opens or turns over a position sets its cost to the price, one that closes it to 0.
      ensures delta != 0 && At(contract).size == 0 ==> At(contract).cost == 0.0
      ensures delta != 0 && At(contract).size != 0 && old(At(contract)).size * At(contract).size <= 0 ==>
        At(contract).cost == price
      ensures delta != 0 ==> positions.Keys == old(positions.Keys) + {contract} && generation == old(generation) + 1
      ensures forall other :: other != contract ==> At(other) == old(At(other))
    {
      if delta == 0 {
        return None;
      }
      var entry := if contract in positions then positions[contract] else Flat;
      if entry.size + delta != 0 {
        Signs(entry.size, entry.size + delta);
      }
      var size := entry.size + delta;
      var cost;
      if size == 0 {
        cost := 0.0;
      } else if entry.size == 0 || (entry.size > 0) != (size > 0) {
        cost := price;
      } else if (entry.size > 0) == (delta > 0) {
        cost := entry.cost + (price - entry.cost) * Shares(Abs(delta)) / Shares(Abs(size));
      } else {
        cost := entry.cost;
      }
      positions := positions[contract := Position(size, cost)];
      generation := generation + 1;
      return Some(positions[contract]);
    }

    /** `apply_commission_to_position`: a contract with no position, or a closed one, is left as it is. */
    method ApplyCommission(contract: int, commission: real)
      modifies this
      ensures At(contract) == Charged(old(At(contract)), commission)
      ensures positions.Keys == old(positions.Keys)
      ensures generation == old(generation) + if old(At(contract)).size == 0 then 0 else 1
      ensures forall other :: other != contract ==> At(other) == old(At(other))
    {
      if contract !in positions || positions[contract].size == 0 {
        return;
      }
      var entry := positions[contract];
      positions := positions[contract := entry.(cost := entry.cost + commission / Shares(entry.size))];
      generation := generation + 1;
    }
  }

  // ── The books of a contract ──

  datatype Event = Fill(delta: int, price: real) | Commission(amount: real)

  function After(p: Position, e: Event): Position {
    match e
    case Fill(delta, price) => if delta == 0 then p else Filled(p, delta, price)
    case Commission(amount) => Charged(p, amount)
  }

  /** The position that a run of events leaves of one that starts flat. */
  function Run(es: seq<Event>): Position {
    if es == [] then Flat else After(Run(es[..|es| - 1]), es[|es| - 1])
  }

  /** The money an event brings: a sale brings it in, a purchase and a commission take it out. */
  function Cash(e: Event): real {
    match e
    case Fill(delta, price) => -(Shares(delta) * price)
    case Commission(amount) => -amount
  }

  function TotalCash(es: seq<Event>): real {
    if es == [] then 0.0 else TotalCash(es[..|es| - 1]) + Cash(es[|es| - 1])
  }

  /** The part of a position that a fill closes, with the sign of the position. */
  function Closed(size: int, delta: int): int {
    if size > 0 && delta < 0 then (if -delta < size then -delta else size)
    else if size < 0 && delta > 0 then -(if delta < -size then delta else -size)
    else 0
  }

  /** The profit of an event: the closed part's gain over its cost; a commission on no position is lost. */
  function Profit(p: Position, e: Event): real {
    match e
    case Fill(delta, price) => Shares(Closed(p.size, delta)) * (price - p.cost)
    case Commission(amount) => if p.size == 0 then -amount else 0.0
  }

  function TotalProfit(es: seq<Event>): real {
    if es == [] then 0.0 else TotalProfit(es[..|es| - 1]) + Profit(Run(es[..|es| - 1]), es[|es| - 1])
  }

  /** What the position cost: its size times its average cost. */
  function Basis(p: Position): real {
    Shares(p.size) * p.cost
  }

  lemma SharesSign(a: int)
    ensures a > 0 <==> Shares(a) > 0.0
    ensures a < 0 <==> Shares(a) < 0.0
    ensures Shares(-a) == -Shares(a)
  {
  }

  lemma FillBasis(p: Position, delta: int, price: real)
    requires delta != 0
    ensures Basis(Filled(p, delta, price)) + Cash(Fill(delta, price)) == Basis(p) + Profit(p, Fill(delta, price))
  {
  }

  /** A commission on an open position raises what the position cost by its amount. */
  lemma CommissionBasis(p: Position, amount: real)
    ensures Basis(Charged(p, amount)) == Basis(p) + if p.size == 0 then 0.0 else amount
  {
  }

  /**
    Over any run of fills and commissions on a position that starts flat, what the position cost and the
    money that came in make up the profit taken; so once it is closed, the profit is the money.
  */
  lemma {:induction false} CostIsConserved(es: seq<Event>)
    ensures Basis(Run(es)) + TotalCash(es) == TotalProfit(es)
    ensures Run(es).size == 0 ==> TotalProfit(es) == TotalCash(es)
    decreases |es|
  {
    SharesSign(0);
    if es != [] {
      var front, e := es[..|es| - 1], es[|es| - 1];
      CostIsConserved(front);
      EventBasis(Run(front), e);
    }
  }

  lemma EventBasis(p: Position, e: Event)
    ensures Basis(After(p, e)) + Cash(e) == Basis(p) + Profit(p, e)
  {
    match e
    case Fill(delta, price) =>
      if delta == 0 {
        NothingFilled(p, price);
      } else {
        hide Filled, Basis, Cash, Profit;
        FillBasis(p, delta, price);
      }
    case Commission(amount) =>
      hide Charged, Basis;
      CommissionBasis(p, amount);
  }

  lemma NothingFilled(p: Position, price: real)
    ensures Cash(Fill(0, price)) == Profit(p, Fill(0, price)) == 0.0
  {
    var none := Shares(0);
    assert none == 0.0 && none * price == 0.0 && none * (price - p.cost) == 0.0;
    assert Closed(p.size, 0) == 0;
  }

  lemma Signs(a: int, b: int)
    requires b != 0
    ensures a * b <= 0 <==> a == 0 || (a > 0) != (b > 0)
  {
  }

  /** A closed position has no cost, after any run of fills and commissions. */
  lemma {:induction false} ClosedCostsNothing(es: seq<Event>)
    ensures Run(es).size == 0 ==> Run(es).cost == 0.0
    decreases |es|
  {
    if es != [] {
      ClosedCostsNothing(es[..|es| - 1]);
    }
  }

  // ── The bounds of the average cost ──

  /** The prices of the fills that opened the position held now or added to it. */
  function Prices(es: seq<Event>): seq<real> {
    if es == [] then []
    else
      var front, e := es[..|es| - 1], es[|es| - 1];
      var before, after := Run(front).size, Run(es).size;
      if e.Commission? || e.delta == 0 then Prices(front)
      else if after == 0 then []
      else if before == 0 || (before > 0) != (after > 0) then [e.price]
      else if (before > 0) == (e.delta > 0) then Prices(front) + [e.price]
      else Prices(front)
  }

  lemma Portion(x: real, q: real, d: real, n: real)
    requires x >= 0.0 && 0.0 < d < n && q * n == x * d
    ensures 0.0 <= q <= x
  {
  }

  /** The step of the cost that an adding fill makes. */
  lemma StepOfCost(p: Position, delta: int, price: real) returns (q: real, d: real, n: real)
    requires p.size != 0 && delta != 0 && (p.size > 0) == (delta > 0)
    ensures Filled(p, delta, price).cost == p.cost + q && 0.0 < d < n
    ensures q * n == (price - p.cost) * d && -q * n == (p.cost - price) * d
  {
    d, n := Shares(Abs(delta)), Shares(Abs(p.size + delta));
    SharesLess(Abs(delta), Abs(p.size + delta));
    hide Shares;
    q := (price - p.cost) * d / n;
  }

  /** The average that an adding fill gives is between the cost before and the price. */
  lemma Between(p: Position, delta: int, price: real)
    requires p.size != 0 && delta != 0 && (p.size > 0) == (delta > 0)
    ensures var c := Filled(p, delta, price).cost; price <= c <= p.cost || p.cost <= c <= price
  {
    hide *;
    var q, d, n := StepOfCost(p, delta, price);
    if price >= p.cost {
      Portion(price - p.cost, q, d, n);
    } else {
      Portion(p.cost - price, -q, d, n);
    }
  }

  /** A cost that is at or above one of the prices and at or below one. */
  predicate Within(cost: real, prices: seq<real>) {
    (exists i :: 0 <= i < |prices| && prices[i] <= cost) && (exists i :: 0 <= i < |prices| && cost <= prices[i])
  }

  lemma WithinMore(cost: real, prices: seq<real>, price: real, c: real)
    requires Within(cost, prices) && (price <= c <= cost || cost <= c <= price)
    ensures Within(c, prices + [price])
  {
    var lo :| 0 <= lo < |prices| && prices[lo] <= cost;
    var hi :| 0 <= hi < |prices| && cost <= prices[hi];
    var more := prices + [price];
    assert more[lo] == prices[lo] && more[hi] == prices[hi] && more[|prices|] == price;
  }

  /**
    Without commissions, the average cost is between the lowest and the highest price it was bought (or
    sold short) at.
  */
  lemma {:induction false} CostIsWithinPrices(es: seq<Event>)
    requires forall i :: 0 <= i < |es| ==> es[i].Fill?
    ensures Run(es).size != 0 ==> Within(Run(es).cost, Prices(es))
    decreases |es|
  {
    if es != [] {
      hide Within, Filled;
      var front, e := es[..|es| - 1], es[|es| - 1];
      CostIsWithinPrices(front);
      var p, q := Run(front), Run(es);
      FilledCases(p, e.delta, e.price);
      if e.delta != 0 && q.size != 0 {
        if p.size == 0 || (p.size > 0) != (q.size > 0) {
          OnePrice(e.price);
        } else if (p.size > 0) == (e.delta > 0) {
          Between(p, e.delta, e.price);
          WithinMore(p.cost, Prices(front), e.price, q.cost);
        }
      }
    }
  }

  lemma FilledCases(p: Position, delta: int, price: real)
    ensures var q := Filled(p, delta, price);
      && q.size == p.size + delta
      && (q.size != 0 && (p.size == 0 || (p.size > 0) != (q.size > 0)) ==> q.cost == price)
      && (q.size != 0 && (p.size > 0) == (q.size > 0) && p.size != 0 && (p.size > 0) != (delta > 0) ==>
          q.cost == p.cost)
  {
  }

  lemma OnePrice(price: real)
    ensures Within(price, [price])
  {
    assert [price][0] == price;
  }

  lemma SharesLess(a: int, b: int)
    requires 0 < a < b
    ensures 0.0 < Shares(a) < Shares(b)
  {
  }
}

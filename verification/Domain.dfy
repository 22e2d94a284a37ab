/** Vocabulary shared by every component: sides, keys, money constants and the
    conversion from contract units to micro-dollars. */
module Domain {
  datatype Option<+T> = None | Some(value: T)

  datatype Result<+T, +E> = Success(value: T) | Failure(error: E)

  /** One cent, and one dollar, in micro-dollars. */
  const CENT_MICROS := 10_000
  const DOLLAR_MICROS := 1_000_000

  datatype Side = Buy | Sell

  datatype OutcomeSide = Yes | No

  // Opaque references: only equality matters, and for markets a total order.
  type AgentId = int
  type MarketRef = int

  datatype PositionKey = PositionKey(market: MarketRef, outcome: OutcomeSide)

  /** A strictly positive integer, such as a denominator. */
  type pos = n: int | 0 < n witness 1

  /** A price in micro-dollars inside the binary range. */
  type Price = p: int | 0 <= p <= 1_000_000

  /** Cash for hundredths of a contract at a micro-dollar price, rounded half up. */
  function GrossCash(units: nat, price: Price): nat {
    Mul(units, price) / 100 + if Mul(units, price) % 100 >= 50 then 1 else 0
  }

  /** Multiplication under a name, so that proofs choose when to expand it. */
  function Mul(a: nat, b: nat): nat {
    a * b
  }

  lemma {:induction false} MulMonotone(a: nat, b: nat, k: nat)
    requires a <= b
    ensures Mul(a, k) <= Mul(b, k)
  {
    assert b * k == a * k + (b - a) * k;
  }

  /** The cash is a nearest integer to units * price / 100, ties going up. */
  lemma {:induction false} GrossCashIsNearest(units: nat, price: Price)
    ensures -50 < 100 * GrossCash(units, price) - Mul(units, price) <= 50
  {
    var n := Mul(units, price);
    assert n == 100 * (n / 100) + n % 100;
  }

  lemma {:induction false} GrossCashMonotone(units: nat, more: nat, price: Price)
    requires units <= more
    ensures GrossCash(units, price) <= GrossCash(more, price)
  {
    MulMonotone(units, more, price);
    GrossCashIsNearest(units, price);
    GrossCashIsNearest(more, price);
  }

  /** Buying as many units as some cash covers never costs more than that cash. */
  lemma {:induction false} GrossCashWithin(units: nat, price: Price, cash: nat)
    requires Mul(units, price) <= 100 * cash
    ensures GrossCash(units, price) <= cash
  {
    GrossCashIsNearest(units, price);
  }
}

/** Money amounts: whole numbers of 1/10000, the scale of every stored amount. */
module Money {
  /** `roundMoney`: the nearest multiple of 1/10000, halves away from zero (billing.rules.ts). */
  function RoundMoney(value: real): int {
    if value >= 0.0 then (value * 10000.0 + 0.5).Floor else -((0.5 - value * 10000.0).Floor)
  }

  /** A stored amount as the decimal it stands for. */
  function Decimal(units: int): (value: real)
    ensures RoundMoney(value) == units
  {
    units as real / 10000.0
  }

  /** The result is within half a unit, and a value exactly between two amounts goes away from zero. */
  lemma RoundIsNearest(value: real)
    ensures var r, x := RoundMoney(value) as real, value * 10000.0;
            && -0.5 <= r - x <= 0.5
            && (r - x == 0.5 ==> value > 0.0)
            && (r - x == -0.5 ==> value < 0.0)
  {
  }

  lemma RoundIsMonotone(a: real, b: real)
    requires a <= b
    ensures RoundMoney(a) <= RoundMoney(b)
  {
  }

  /** Rounding treats both signs alike. */
  lemma RoundIsOdd(value: real)
    ensures RoundMoney(-value) == -RoundMoney(value)
  {
  }
}

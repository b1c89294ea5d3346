/** The fixed-point unit, the minimum ratio and the minimum of two amounts, as all contracts share them. */
module Units {

  /** `DECIMAL_PRECISION` */
  const PRECISION: nat := 1_000_000_000_000_000_000

  /** One RBTC, one BPD or the number one, in wei. */
  const U: nat := PRECISION

  /** 110% */
  const MCR: nat := 1_100_000_000_000_000_000

  /** `MoneypMath._min` */
  function Min(a: nat, b: nat): nat { if a < b then a else b }
}

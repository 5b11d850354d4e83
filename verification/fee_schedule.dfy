/**
 The static trade-fee table of the fee service: minimum and default maker and
 taker fees, each in two settlement currencies. A fee paid in BTC is given in
 satoshi per traded BTC; a fee paid in BSQ is given in BSQ-satoshi.

 The lookups take the source's boolean flag: `true` selects the BTC column and
 `false` the BSQ column.
 */
module FeeSchedule {

  const MIN_MAKER_FEE_BTC: int := 5_000
  const MIN_TAKER_FEE_BTC: int := 5_000
  const DEFAULT_MAKER_FEE_BTC: int := 200_000
  const DEFAULT_TAKER_FEE_BTC: int := 200_000

  const MIN_MAKER_FEE_BSQ: int := 5
  const MIN_TAKER_FEE_BSQ: int := 5
  const DEFAULT_TAKER_FEE_BSQ: int := 200
  const DEFAULT_MAKER_FEE_BSQ: int := 200

  /** The two columns of the table. */
  datatype Currency = Btc | Bsq

  function CurrencyOf(currencyIsBtc: bool): Currency {
    if currencyIsBtc then Btc else Bsq
  }

  /** The rows of the table. */
  datatype Role = MinMaker | DefaultMaker | MinTaker | DefaultTaker

  /** The whole table as one value, the reference the lookups are checked against. */
  function Table(role: Role, currency: Currency): int {
    match (role, currency)
    case (MinMaker, Btc) => MIN_MAKER_FEE_BTC
    case (MinMaker, Bsq) => MIN_MAKER_FEE_BSQ
    case (DefaultMaker, Btc) => DEFAULT_MAKER_FEE_BTC
    case (DefaultMaker, Bsq) => DEFAULT_MAKER_FEE_BSQ
    case (MinTaker, Btc) => MIN_TAKER_FEE_BTC
    case (MinTaker, Bsq) => MIN_TAKER_FEE_BSQ
    case (DefaultTaker, Btc) => DEFAULT_TAKER_FEE_BTC
    case (DefaultTaker, Bsq) => DEFAULT_TAKER_FEE_BSQ
  }

  /** Default maker fee for a 1 BTC trade. */
  function MakerFeePerBtc(currencyIsBtc: bool): (fee: int)
    ensures fee == Table(DefaultMaker, CurrencyOf(currencyIsBtc))
    ensures fee >= MinMakerFee(currencyIsBtc) > 0
  {
    if currencyIsBtc then DEFAULT_MAKER_FEE_BTC else DEFAULT_MAKER_FEE_BSQ
  }

  /** Lowest maker fee a trade may be charged. */
  function MinMakerFee(currencyIsBtc: bool): (fee: int)
    ensures fee == Table(MinMaker, CurrencyOf(currencyIsBtc))
    ensures fee > 0
  {
    if currencyIsBtc then MIN_MAKER_FEE_BTC else MIN_MAKER_FEE_BSQ
  }

  /** Default taker fee for a 1 BTC trade. */
  function TakerFeePerBtc(currencyIsBtc: bool): (fee: int)
    ensures fee == Table(DefaultTaker, CurrencyOf(currencyIsBtc))
    ensures fee >= MinTakerFee(currencyIsBtc) > 0
  {
    if currencyIsBtc then DEFAULT_TAKER_FEE_BTC else DEFAULT_TAKER_FEE_BSQ
  }

  /** Lowest taker fee a trade may be charged. */
  function MinTakerFee(currencyIsBtc: bool): (fee: int)
    ensures fee == Table(MinTaker, CurrencyOf(currencyIsBtc))
    ensures fee > 0
  {
    if currencyIsBtc then MIN_TAKER_FEE_BTC else MIN_TAKER_FEE_BSQ
  }

  /** The table is ordered: in each currency the minimum never exceeds the
      default, and the two columns are distinct for every role. */
  lemma ScheduleOrdered(currency: Currency)
    ensures Table(MinMaker, currency) <= Table(DefaultMaker, currency)
    ensures Table(MinTaker, currency) <= Table(DefaultTaker, currency)
    ensures forall role: Role :: Table(role, Btc) != Table(role, Bsq)
  {
  }
}

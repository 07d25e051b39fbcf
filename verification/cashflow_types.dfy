/** The data model shared by the amount resolver, the loader and the item list. */
module CashflowTypes {

  /** A value that may be absent: a null in the source becomes None. */
  datatype Option<T> = None | Some(value: T)

  /** The three columns of the board: money IN, money OUT and HOLDING. */
  datatype Bucket = In | Out | Holding

  /** A recurrence frequency; the same five codes serve as display periods. */
  datatype Period = D | W | M | Q | Y

  /** Which of an item's two amounts is authoritative: "REAL" or "WHAT IF". */
  datatype Mode = Real | WhatIf

  datatype Color = Blue | Green | Purple | Orange | Pink | Teal | Red | Yellow

  /** An instant; the model never inspects it. */
  type Timestamp = int

  /** One cashflow entry. Amounts are exact reals rather than IEEE doubles. */
  datatype Item = Item(
    id: string,
    title: string,
    realAmount: Option<real>,
    whatIfAmount: Option<real>,
    frequency: Period,
    bucket: Bucket,
    color: Color,
    createdAt: Timestamp,
    updatedAt: Timestamp,
    createdByUserId: Option<string>)
}

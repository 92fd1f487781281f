/**
 Scalar types, orders' wire records and the constants shared by every component.
 Machine integers are subset types of `int`: an assignment that could leave the
 range of the C++ field it models is a verification error.
 */
module Types {
  const UINT32_MAX := 0xFFFF_FFFF
  const TWO32 := 0x1_0000_0000
  const TWO64 := 0x1_0000_0000_0000_0000
  const UINT64_MAX := 0xFFFF_FFFF_FFFF_FFFF
  const INT32_MAX := 0x7FFF_FFFF
  const INT64_MAX := 0x7FFF_FFFF_FFFF_FFFF
  const INT64_MIN := -0x8000_0000_0000_0000

  type U32 = x: int | 0 <= x <= UINT32_MAX
  type U64 = x: int | 0 <= x <= UINT64_MAX
  type I32 = x: int | -INT32_MAX - 1 <= x <= INT32_MAX

  type Price = x: int | INT64_MIN <= x <= INT64_MAX
  type Qty = U32
  type OrderId = U64

  const INVALID_ORDER_ID: OrderId := 0

  datatype Side = Buy | Sell

  datatype OrderType = Limit | Market | Ioc

  datatype CommandType = New | Cancel

  datatype EventType = Accepted | Rejected | Traded | Canceled

  datatype RejectReason = NoReason | InvalidQty | InvalidPrice | PoolExhausted | UnknownOrder

  datatype Event = Event(
    kind: EventType,
    side: Side,
    reason: RejectReason,
    qty: Qty,
    remaining: Qty,
    price: Price,
    id: OrderId)

  datatype Command = Command(
    kind: CommandType,
    side: Side,
    otype: OrderType,
    qty: Qty,
    price: Price,
    id: OrderId)

  datatype Option<+T> = None | Some(value: T)

  function Opposite(side: Side): Side {
    if side == Buy then Sell else Buy
  }

  function Min(a: int, b: int): int {
    if a < b then a else b
  }

  function Max(a: int, b: int): int {
    if a > b then a else b
  }
}

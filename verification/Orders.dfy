/** The order vocabulary shared by every component (cpp/include/order_book_v2.h).
    Prices are integer ticks and quantities unbounded naturals. */
module Orders {

  datatype Option<+T> = None | Some(value: T)

  datatype Side = Buy | Sell

  function Opposite(side: Side): Side {
    if side.Buy? then Sell else Buy
  }

  datatype OrderType = Limit | Market | Cancel | IOC | FOK | PostOnly

  datatype OrderRequest = OrderRequest(id: nat, side: Side, kind: OrderType, price: int, qty: nat)

  datatype Trade = Trade(makerId: nat, takerId: nat, price: int, qty: nat)

  function Min(a: nat, b: nat): nat {
    if a <= b then a else b
  }
}

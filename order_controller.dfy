/** Controllers/OrderController.cs: settling a new order against the buyer's
    wallet, replacing an order's fields and items, and deleting an order. */
module OrderController {
  import opened Common
  import opened Models
  import opened Data

  /** One requested line item (OrderItemCreateDTO): the subtotal is the
      client's figure and is stored as sent. */
  datatype OrderItemDto = OrderItemDto(productId: int, orderItemsQuantity: int, orderItemSubtotal: Money)

  /** The body of POST api/Order; a null item list is `None`. */
  datatype OrderCreateDto = OrderCreateDto(
    userId: int,
    customerTransactionId: int,
    orderTotalAmount: Money,
    orderStatus: bool,
    orderItems: Option<seq<OrderItemDto>>)

  /** The body of PUT api/Order/{id}; a null item list is `None`. */
  datatype OrderUpdateDto = OrderUpdateDto(
    orderId: int,
    userId: int,
    customerTransactionId: int,
    orderTotalAmount: Money,
    orderStatus: bool,
    orderItems: Option<seq<OrderItemDto>>)

  /** The item list is present (not null) and not empty. */
  predicate HasItems(items: Option<seq<OrderItemDto>>) {
    items.Some? && |items.value| > 0
  }

  /** The items of a new order as the request builds them: product, quantity
      and the client's subtotal; the keys are given by the save. */
  function CreatedItems(dtos: seq<OrderItemDto>): (r: seq<OrderItem>)
    ensures |r| == |dtos|
    ensures forall k :: 0 <= k < |dtos| ==>
              && r[k].productId == dtos[k].productId
              && r[k].orderItemsQuantity == dtos[k].orderItemsQuantity
              && r[k].orderItemSubtotal == dtos[k].orderItemSubtotal
  {
    seq(|dtos|, k requires 0 <= k < |dtos| =>
      OrderItem(0, dtos[k].productId, 0, dtos[k].orderItemsQuantity, dtos[k].orderItemSubtotal, 0))
  }

  /** The items that replace an order's items on update: product and quantity
      from the request, the subtotal left at its default 0. */
  function ReplacementItems(dtos: seq<OrderItemDto>): (r: seq<OrderItem>)
    ensures |r| == |dtos|
    ensures forall k :: 0 <= k < |dtos| ==>
              && r[k].productId == dtos[k].productId
              && r[k].orderItemsQuantity == dtos[k].orderItemsQuantity
              && r[k].orderItemSubtotal == 0.0
  {
    seq(|dtos|, k requires 0 <= k < |dtos| =>
      OrderItem(0, dtos[k].productId, 0, dtos[k].orderItemsQuantity, 0.0, 0))
  }

  /** The balance of the buyer's wallet covers the order total. */
  predicate Covers(wallets: seq<Wallet>, userId: int, total: Money) {
    match FindWalletOfUser(wallets, userId)
    case None => false
    case Some(i) => wallets[i].balance >= total
  }

  /** The database after an accepted order: wallet row `i` debited by the
      total, the order with its items appended under the next order key, and
      an "Order" ledger row for it appended under the next transaction key.
      The order's CustomerTransactionId is copied before that key exists and
      keeps the unassigned value 0. */
  function Settled(s: Store, dto: OrderCreateDto, i: nat, now: Timestamp, utcNow: Timestamp): (r: Store)
    requires i < |s.wallets| && dto.orderItems.Some?
    ensures |r.orders| == |s.orders| + 1 && r.orders[..|s.orders|] == s.orders
    ensures |r.transactions| == |s.transactions| + 1 && r.transactions[..|s.transactions|] == s.transactions
    ensures var o, t := r.orders[|s.orders|], r.transactions[|s.transactions|];
            && o.orderId == s.nextOrderId && o.userId == dto.userId
            && |o.orderItems| == |dto.orderItems.value|
            && (forall k :: 0 <= k < |o.orderItems| ==> o.orderItems[k].orderId == o.orderId)
            && t.orderId == Some(o.orderId) && t.walletId == s.wallets[i].id
            && t.amount == o.orderTotalAmount == dto.orderTotalAmount
            && t.kind == "Order" && t.status == "Completed"
    ensures var o := r.orders[|s.orders|];
            forall k :: 0 <= k < |o.orderItems| ==>
              && o.orderItems[k].productId == dto.orderItems.value[k].productId
              && o.orderItems[k].orderItemsQuantity == dto.orderItems.value[k].orderItemsQuantity
              && o.orderItems[k].orderItemSubtotal == dto.orderItems.value[k].orderItemSubtotal
    ensures var o := r.orders[|s.orders|];
            o.orderDate == now && o.orderStatus == dto.orderStatus && o.customerTransactionId == 0
    ensures |r.wallets| == |s.wallets| && r.wallets[i].balance == s.wallets[i].balance - dto.orderTotalAmount
    ensures r.wallets[i].id == s.wallets[i].id && r.wallets[i].userId == s.wallets[i].userId
    ensures forall j :: 0 <= j < |s.wallets| && j != i ==> r.wallets[j] == s.wallets[j]
    ensures r.users == s.users && r.products == s.products && r.categories == s.categories
  {
    var items := dto.orderItems.value;
    s.(wallets := Debit(s.wallets, i, dto.orderTotalAmount),
       orders := s.orders + [Order(s.nextOrderId, dto.userId, now, 0, dto.orderTotalAmount, dto.orderStatus,
                                   KeyItems(CreatedItems(items), s.nextOrderId, s.nextOrderItemId))],
       transactions := s.transactions + [CustomerTransaction(s.nextTransactionId, Some(s.nextOrderId),
                         s.wallets[i].id, dto.orderTotalAmount, "Order", utcNow, "Completed")],
       nextOrderId := s.nextOrderId + 1,
       nextOrderItemId := s.nextOrderItemId + |items|,
       nextTransactionId := s.nextTransactionId + 1)
  }

  /** POST api/Order. Refuses an order without items, a buyer without a
      wallet, and a total above the balance, changing nothing. Otherwise
      debits the wallet by the total, inserts the order with its items (first
      save) and appends one "Order" ledger row for it (second save). */
  method CreateOrder(db: DataContext, dto: OrderCreateDto, now: Timestamp, utcNow: Timestamp)
    returns (status: Status, orderId: int, transactionId: int)
    requires db.Valid()
    modifies db
    ensures db.Valid()
    ensures status in {Ok, BadRequest}
    ensures status == Ok <==> HasItems(dto.orderItems) && Covers(old(db.wallets), dto.userId, dto.orderTotalAmount)
    ensures status == BadRequest ==> db.Contents() == old(db.Contents())
    ensures status == Ok ==>
              var i := FindWalletOfUser(old(db.wallets), dto.userId).value;
              && orderId == old(db.nextOrderId)
              && transactionId == old(db.nextTransactionId)
              && db.Contents() == Settled(old(db.Contents()), dto, i, now, utcNow)
              && db.wallets[i].balance == old(db.wallets)[i].balance - dto.orderTotalAmount
              && db.wallets[i].balance >= 0.0
              && TotalBalance(db.wallets) == TotalBalance(old(db.wallets)) - dto.orderTotalAmount
  {
    orderId, transactionId := 0, 0;
    if dto.orderItems.None? || |dto.orderItems.value| == 0 {
      return BadRequest, orderId, transactionId;
    }
    var found := FindWalletOfUser(db.wallets, dto.userId);
    if found.None? {
      return BadRequest, orderId, transactionId;
    }
    var i := found.value;
    if db.wallets[i].balance < dto.orderTotalAmount {
      return BadRequest, orderId, transactionId;
    }
    CoveredDebit(db.wallets, i, dto.orderTotalAmount);
    orderId, transactionId := SettleOrder(db, dto, i, now, utcNow);
    status := Ok;
  }

  /** The accepted path of `CreateOrder`: the debit, the first save (the order
      and its items get their keys) and the second save (the ledger row). */
  method SettleOrder(db: DataContext, dto: OrderCreateDto, i: nat, now: Timestamp, utcNow: Timestamp)
    returns (orderId: int, transactionId: int)
    requires db.Valid() && dto.orderItems.Some? && i < |db.wallets|
    modifies db
    ensures db.Valid()
    ensures orderId == old(db.nextOrderId) && transactionId == old(db.nextTransactionId)
    ensures db.Contents() == Settled(old(db.Contents()), dto, i, now, utcNow)
  {
    var wallet := db.wallets[i];
    db.SaveBalance(i, wallet.balance - dto.orderTotalAmount);
    orderId := db.AddOrder(Order(0, dto.userId, now, 0, dto.orderTotalAmount, dto.orderStatus,
                                 CreatedItems(dto.orderItems.value)));
    transactionId := db.AddTransaction(CustomerTransaction(0, Some(orderId), wallet.id, dto.orderTotalAmount,
                                                           "Order", utcNow, "Completed"));
  }

  /** PUT api/Order/{id}. Overwrites the order's user, transaction link, total
      and status, and replaces its items wholesale. No wallet and no ledger row
      is touched. */
  method UpdateOrder(db: DataContext, id: int, dto: OrderUpdateDto) returns (status: Status)
    requires db.Valid()
    modifies db
    ensures db.Valid()
    ensures status == BadRequest <==> id != dto.orderId
    ensures status == NotFound <==> id == dto.orderId && FindOrder(old(db.orders), id).None?
    ensures status in {Ok, BadRequest, NotFound}
    ensures status != Ok ==> db.Contents() == old(db.Contents())
    ensures status == Ok ==>
              var k := FindOrder(old(db.orders), id).value;
              var items := if dto.orderItems.Some? then dto.orderItems.value else [];
              && db.Contents() == old(db.Contents()).(
                   orders := old(db.orders)[k := old(db.orders)[k].(
                     userId := dto.userId,
                     customerTransactionId := dto.customerTransactionId,
                     orderTotalAmount := dto.orderTotalAmount,
                     orderStatus := dto.orderStatus,
                     orderItems := KeyItems(ReplacementItems(items), id, old(db.nextOrderItemId)))],
                   nextOrderItemId := old(db.nextOrderItemId) + |items|)
              && db.wallets == old(db.wallets)
              && db.transactions == old(db.transactions)
  {
    if id != dto.orderId {
      return BadRequest;
    }
    var found := FindOrder(db.orders, id);
    if found.None? {
      return NotFound;
    }
    var k := found.value;
    var items := if dto.orderItems.Some? then dto.orderItems.value else [];
    var order := db.orders[k].(userId := dto.userId, customerTransactionId := dto.customerTransactionId,
                               orderTotalAmount := dto.orderTotalAmount, orderStatus := dto.orderStatus,
                               orderItems := ReplacementItems(items));
    db.SaveOrder(k, order);
    status := Ok;
  }

  /** DELETE api/Order/{id}. Removes the order and the items it owns; the
      wallet debit is not refunded and the ledger row stays. */
  method DeleteOrder(db: DataContext, id: int) returns (status: Status)
    requires db.Valid()
    modifies db
    ensures db.Valid()
    ensures status == NotFound <==> FindOrder(old(db.orders), id).None?
    ensures status in {Ok, NotFound}
    ensures status == NotFound ==> db.Contents() == old(db.Contents())
    ensures status == Ok ==>
              && db.Contents() == old(db.Contents()).(orders := RemoveAt(old(db.orders), FindOrder(old(db.orders), id).value))
              && db.wallets == old(db.wallets)
              && db.transactions == old(db.transactions)
              && forall o :: o in db.orders ==> o.orderId != id
  {
    var found := FindOrder(db.orders, id);
    if found.None? {
      return NotFound;
    }
    db.RemoveOrder(found.value);
    status := Ok;
  }
}

/** Controllers/CustomerTransactionController.cs: recording a ledger row
    together with the order it is linked to, deleting a ledger row, and the two
    history queries (by wallet and by user), newest first. */
module CustomerTransactionController {
  import opened Common
  import opened Models
  import opened Data

  /** CustomerTransactionDTO: the body of POST api/CustomerTransaction and the
      rows GET api/CustomerTransaction/wallet/{walletId}/transactions answers. */
  datatype TransactionDto = TransactionDto(
    customerTransactionId: int,
    orderId: Option<int>,
    walletId: int,
    amount: Money,
    kind: string,
    date: Timestamp,
    status: string,
    userId: int)

  /** The order a user-history row shows, when the row has one. */
  datatype OrderSummary = OrderSummary(orderId: int, orderTotalAmount: Money, orderDate: Timestamp)

  /** One row of GET api/CustomerTransaction/user/{userId}. */
  datatype UserTransaction = UserTransaction(
    customerTransactionId: int,
    kind: string,
    amount: Money,
    date: Timestamp,
    status: string,
    order: Option<OrderSummary>)

  // ---------------------------------------------------------------------------
  // Ordering by date, descending (`OrderByDescending(t => t.Date)`)

  /** No row is older than a row after it. */
  predicate NewerFirst(rows: seq<CustomerTransaction>) {
    forall i, j :: 0 <= i < j < |rows| ==> rows[i].date >= rows[j].date
  }

  /** `rows` with `t` inserted before the first row that is not newer than it. */
  function InsertByDate(t: CustomerTransaction, rows: seq<CustomerTransaction>): (r: seq<CustomerTransaction>)
    requires NewerFirst(rows)
    ensures NewerFirst(r)
    ensures multiset(r) == multiset(rows) + multiset{t}
    ensures |r| == |rows| + 1
    ensures r[0] == t || (|rows| > 0 && r[0] == rows[0])
  {
    if |rows| == 0 then [t]
    else if t.date >= rows[0].date then [t] + rows
    else
      var rest := InsertByDate(t, rows[1..]);
      assert rows == [rows[0]] + rows[1..];
      assert rows[0].date >= rest[0].date;
      [rows[0]] + rest
  }

  /** The rows newest first: the same rows, each as often as in `rows`. */
  function SortByDateDesc(rows: seq<CustomerTransaction>): (r: seq<CustomerTransaction>)
    ensures NewerFirst(r)
    ensures multiset(r) == multiset(rows)
    ensures |r| == |rows|
  {
    if |rows| == 0 then []
    else
      assert rows == [rows[0]] + rows[1..];
      InsertByDate(rows[0], SortByDateDesc(rows[1..]))
  }

  // ---------------------------------------------------------------------------
  // GET api/CustomerTransaction/wallet/{walletId}/transactions

  /** The ledger rows of wallet `walletId`, newest first: exactly the rows with
      that wallet, each as often as it is stored. */
  function WalletTransactions(transactions: seq<CustomerTransaction>, walletId: int): (r: seq<CustomerTransaction>)
    ensures NewerFirst(r)
    ensures forall k :: 0 <= k < |r| ==> r[k].walletId == walletId
    ensures forall t :: multiset(r)[t] == if t.walletId == walletId then multiset(transactions)[t] else 0
  {
    var mine := Filter(transactions, (t: CustomerTransaction) => t.walletId == walletId);
    var r := SortByDateDesc(mine);
    assert forall k :: 0 <= k < |r| ==> r[k] in multiset(mine);
    r
  }

  /** The projection of a ledger row the wallet history answers: its wallet and
      user fields are left at their default 0. */
  function AsDto(t: CustomerTransaction): TransactionDto {
    TransactionDto(t.customerTransactionId, t.orderId, 0, t.amount, t.kind, t.date, t.status, 0)
  }

  function GetTransactionsByWallet(transactions: seq<CustomerTransaction>, walletId: int): (r: seq<TransactionDto>)
    ensures |r| == |WalletTransactions(transactions, walletId)|
    ensures forall k :: 0 <= k < |r| ==> r[k] == AsDto(WalletTransactions(transactions, walletId)[k])
    ensures forall i, j :: 0 <= i < j < |r| ==> r[i].date >= r[j].date
  {
    var rows := WalletTransactions(transactions, walletId);
    seq(|rows|, k requires 0 <= k < |rows| => AsDto(rows[k]))
  }

  // ---------------------------------------------------------------------------
  // GET api/CustomerTransaction/user/{userId}

  /** The row's wallet (`t.Wallet`, reached through its WalletId) belongs to
      user `userId`. */
  predicate OwnedBy(wallets: seq<Wallet>, t: CustomerTransaction, userId: int) {
    match FindWallet(wallets, t.walletId)
    case None => false
    case Some(j) => wallets[j].userId == userId
  }

  /** The ledger rows of all wallets of user `userId`, newest first: exactly
      the rows whose wallet belongs to that user, each as often as stored. */
  function UserRows(wallets: seq<Wallet>, transactions: seq<CustomerTransaction>, userId: int)
    : (r: seq<CustomerTransaction>)
    ensures NewerFirst(r)
    ensures forall k :: 0 <= k < |r| ==> OwnedBy(wallets, r[k], userId)
    ensures forall t :: multiset(r)[t] == if OwnedBy(wallets, t, userId) then multiset(transactions)[t] else 0
  {
    var mine := Filter(transactions, (t: CustomerTransaction) => OwnedBy(wallets, t, userId));
    var r := SortByDateDesc(mine);
    assert forall k :: 0 <= k < |r| ==> r[k] in multiset(mine);
    r
  }

  /** The order shown beside a ledger row: the order its OrderId refers to, if
      that order exists. */
  function SummaryOf(orders: seq<Order>, t: CustomerTransaction): (r: Option<OrderSummary>)
    ensures r.Some? <==> t.orderId.Some? && FindOrder(orders, t.orderId.value).Some?
    ensures r.Some? ==>
              var o := orders[FindOrder(orders, t.orderId.value).value];
              && o.orderId == t.orderId.value
              && r.value == OrderSummary(o.orderId, o.orderTotalAmount, o.orderDate)
  {
    match t.orderId
    case None => None
    case Some(id) =>
      match FindOrder(orders, id)
      case None => None
      case Some(k) => Some(OrderSummary(orders[k].orderId, orders[k].orderTotalAmount, orders[k].orderDate))
  }

  function AsUserTransaction(orders: seq<Order>, t: CustomerTransaction): UserTransaction {
    UserTransaction(t.customerTransactionId, t.kind, t.amount, t.date, t.status, SummaryOf(orders, t))
  }

  /** NotFound when the user has no wallet; otherwise the user's ledger rows,
      newest first, each with the order it is linked to. */
  function GetUserTransactions(wallets: seq<Wallet>, transactions: seq<CustomerTransaction>, orders: seq<Order>,
                               userId: int): (r: Result<seq<UserTransaction>>)
    ensures r.Failure? <==> FindWalletOfUser(wallets, userId).None?
    ensures r.Failure? ==> r.status == NotFound
    ensures r.Success? ==>
              var rows := UserRows(wallets, transactions, userId);
              && |r.value| == |rows|
              && (forall k :: 0 <= k < |rows| ==> r.value[k] == AsUserTransaction(orders, rows[k]))
              && (forall i, j :: 0 <= i < j < |rows| ==> r.value[i].date >= r.value[j].date)
  {
    if FindWalletOfUser(wallets, userId).None? then Failure(NotFound)
    else
      var rows := UserRows(wallets, transactions, userId);
      Success(seq(|rows|, k requires 0 <= k < |rows| => AsUserTransaction(orders, rows[k])))
  }

  /** With distinct wallet keys and exactly one wallet `wallets[i]` for the
      user, the user's history holds the same rows as that wallet's history. */
  lemma {:induction false} UserRowsOfSingleWallet(wallets: seq<Wallet>, transactions: seq<CustomerTransaction>,
                                                  userId: int, i: nat)
    requires forall a, b :: 0 <= a < b < |wallets| ==> wallets[a].id != wallets[b].id
    requires i < |wallets| && wallets[i].userId == userId
    requires forall j :: 0 <= j < |wallets| && j != i ==> wallets[j].userId != userId
    ensures multiset(UserRows(wallets, transactions, userId)) == multiset(WalletTransactions(transactions, wallets[i].id))
  {
    forall t ensures OwnedBy(wallets, t, userId) <==> t.walletId == wallets[i].id {
      var found := FindWallet(wallets, t.walletId);
      if t.walletId == wallets[i].id {
        assert found.Some?;
        assert found.value == i;
      }
    }
  }

  // ---------------------------------------------------------------------------
  // POST api/CustomerTransaction and DELETE api/CustomerTransaction/{id}

  /** The rows a recorded transaction adds: one order for the user with the
      amount as its total, status true exactly for a "TopUp", no items and the
      unassigned transaction link 0; and one ledger row linked to that order
      with wallet, amount, type, date and status as sent. */
  function WithRows(s: Store, dto: TransactionDto, now: Timestamp): (r: Store)
    ensures |r.orders| == |s.orders| + 1 && r.orders[..|s.orders|] == s.orders
    ensures |r.transactions| == |s.transactions| + 1 && r.transactions[..|s.transactions|] == s.transactions
    ensures var o, t := r.orders[|s.orders|], r.transactions[|s.transactions|];
            && o.orderId == s.nextOrderId && t.customerTransactionId == s.nextTransactionId
            && t.orderId == Some(o.orderId) && t.amount == o.orderTotalAmount == dto.amount
            && o.orderStatus == (dto.kind == "TopUp") && o.orderItems == [] && o.userId == dto.userId
            && t.walletId == dto.walletId && t.kind == dto.kind && t.date == dto.date && t.status == dto.status
    ensures r.wallets == s.wallets && r.users == s.users && r.products == s.products
  {
    s.(orders := s.orders + [Order(s.nextOrderId, dto.userId, now, 0, dto.amount, dto.kind == "TopUp", [])],
       transactions := s.transactions + [CustomerTransaction(s.nextTransactionId, Some(s.nextOrderId),
                         dto.walletId, dto.amount, dto.kind, dto.date, dto.status)],
       nextOrderId := s.nextOrderId + 1,
       nextTransactionId := s.nextTransactionId + 1)
  }

  /** The database after a recorded transaction: for a "TopUp" the wallet is
      credited by the amount, and then the two rows are added. */
  function Recorded(s: Store, dto: TransactionDto, now: Timestamp): (r: Store)
    requires dto.kind == "TopUp" ==> FindWallet(s.wallets, dto.walletId).Some?
    ensures |r.transactions| == |s.transactions| + 1 && |r.orders| == |s.orders| + 1
    ensures r.transactions[|s.transactions|].orderId == Some(r.orders[|s.orders|].orderId)
    ensures dto.kind != "TopUp" ==> r.wallets == s.wallets
    ensures dto.kind == "TopUp" ==>
              var i := FindWallet(s.wallets, dto.walletId).value;
              && s.wallets[i].id == dto.walletId && |r.wallets| == |s.wallets|
              && r.wallets[i].balance == s.wallets[i].balance + dto.amount
              && forall j :: 0 <= j < |s.wallets| && j != i ==> r.wallets[j] == s.wallets[j]
  {
    if dto.kind == "TopUp" then
      WithRows(s.(wallets := Credit(s.wallets, FindWallet(s.wallets, dto.walletId).value, dto.amount)), dto, now)
    else WithRows(s, dto, now)
  }

  /** POST api/CustomerTransaction. A "TopUp" against a missing wallet answers
      NotFound before the save, so nothing is stored. Otherwise the one save
      stores the order and the ledger row, and a "TopUp" credits the wallet;
      any other type moves no money and checks no balance. */
  method CreateTransaction(db: DataContext, dto: TransactionDto, now: Timestamp)
    returns (status: Status, transactionId: int, orderId: int)
    requires db.Valid()
    modifies db
    ensures db.Valid()
    ensures status in {Ok, NotFound}
    ensures status == NotFound <==> dto.kind == "TopUp" && FindWallet(old(db.wallets), dto.walletId).None?
    ensures status == NotFound ==> db.Contents() == old(db.Contents())
    ensures status == Ok ==>
              && transactionId == old(db.nextTransactionId)
              && orderId == old(db.nextOrderId)
              && db.Contents() == Recorded(old(db.Contents()), dto, now)
    ensures status == Ok && dto.kind == "TopUp" ==>
              var i := FindWallet(old(db.wallets), dto.walletId).value;
              && db.wallets[i].balance == old(db.wallets)[i].balance + dto.amount
              && TotalBalance(db.wallets) == TotalBalance(old(db.wallets)) + dto.amount
    ensures status == Ok && dto.kind != "TopUp" ==> db.wallets == old(db.wallets)
  {
    transactionId, orderId := 0, 0;
    if dto.kind == "TopUp" {
      var found := FindWallet(db.wallets, dto.walletId);
      if found.None? {
        return NotFound, transactionId, orderId;
      }
      transactionId, orderId := RecordTopUp(db, dto, found.value, now);
    } else {
      transactionId, orderId := RecordRows(db, dto, now);
    }
    status := Ok;
  }

  /** The accepted "TopUp" path of `CreateTransaction`: wallet row `i` is
      credited with the amount, then the order and the ledger row are added. */
  method RecordTopUp(db: DataContext, dto: TransactionDto, i: nat, now: Timestamp)
    returns (transactionId: int, orderId: int)
    requires db.Valid() && dto.kind == "TopUp" && FindWallet(db.wallets, dto.walletId) == Some(i)
    modifies db
    ensures db.Valid()
    ensures transactionId == old(db.nextTransactionId) && orderId == old(db.nextOrderId)
    ensures db.Contents() == Recorded(old(db.Contents()), dto, now)
    ensures db.wallets[i].balance == old(db.wallets)[i].balance + dto.amount
    ensures TotalBalance(db.wallets) == TotalBalance(old(db.wallets)) + dto.amount
  {
    TotalBalanceAfterSetBalance(db.wallets, i, db.wallets[i].balance + dto.amount);
    db.SaveBalance(i, db.wallets[i].balance + dto.amount);
    transactionId, orderId := RecordRows(db, dto, now);
  }

  /** The order and the ledger row of `CreateTransaction`: the order is
      inserted first, so the ledger row can carry its key. */
  method RecordRows(db: DataContext, dto: TransactionDto, now: Timestamp) returns (transactionId: int, orderId: int)
    requires db.Valid()
    modifies db
    ensures db.Valid()
    ensures transactionId == old(db.nextTransactionId) && orderId == old(db.nextOrderId)
    ensures db.Contents() == WithRows(old(db.Contents()), dto, now)
  {
    orderId := db.AddOrder(Order(0, dto.userId, now, 0, dto.amount, dto.kind == "TopUp", []));
    transactionId := db.AddTransaction(CustomerTransaction(0, Some(orderId), dto.walletId, dto.amount,
                                                           dto.kind, dto.date, dto.status));
  }

  /** DELETE api/CustomerTransaction/{id}: removes that ledger row and nothing
      else; no balance is touched. */
  method DeleteTransaction(db: DataContext, id: int) returns (status: Status)
    requires db.Valid()
    modifies db
    ensures db.Valid()
    ensures status == NotFound <==> FindTransaction(old(db.transactions), id).None?
    ensures status in {Ok, NotFound}
    ensures status == NotFound ==> db.Contents() == old(db.Contents())
    ensures status == Ok ==>
              && db.Contents() == old(db.Contents()).(
                   transactions := RemoveAt(old(db.transactions), FindTransaction(old(db.transactions), id).value))
              && db.wallets == old(db.wallets)
              && forall t :: t in db.transactions ==> t.customerTransactionId != id
  {
    var found := FindTransaction(db.transactions, id);
    if found.None? {
      return NotFound;
    }
    db.RemoveTransaction(found.value);
    status := Ok;
  }
}

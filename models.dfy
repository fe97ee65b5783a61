/** The entities of the kiosk database (the classes under Models), the lookups the
    controllers perform on their tables, and the balance updates that every
    money-moving action is built from. */
module Models {
  import opened Common

  datatype User = User(
    userId: int,
    roleId: int,          // 1 = admin, 2 = user
    isActive: bool,
    userName: string,
    userPassword: string, // the stored password hash
    name: string,
    surname: string,
    userEmail: string)

  datatype Wallet = Wallet(
    id: int,
    userId: int,
    customerTransactionId: int, // a column no controller writes
    balance: Money)

  datatype OrderItem = OrderItem(
    orderItemId: int,
    productId: int,
    orderId: int,
    orderItemsQuantity: int,
    orderItemSubtotal: Money,
    quantity: int)              // a second quantity column no controller writes

  /** An order together with the items it owns. */
  datatype Order = Order(
    orderId: int,
    userId: int,
    orderDate: Timestamp,
    customerTransactionId: int,
    orderTotalAmount: Money,
    orderStatus: bool,
    orderItems: seq<OrderItem>)

  /** A ledger row. `orderId` is the nullable foreign key to an order. */
  datatype CustomerTransaction = CustomerTransaction(
    customerTransactionId: int,
    orderId: Option<int>,
    walletId: int,
    amount: Money,
    kind: string,               // the `Type` column: "TopUp", "Order", ...
    date: Timestamp,
    status: string)

  datatype Product = Product(
    productId: int,
    categoryId: int,
    supplierId: Option<int>,
    productName: string,
    price: Money,
    quantity: int,
    description: string,
    isAvailable: bool,
    lastUpdated: Timestamp,
    image: Option<string>)     // relative path of the stored image, or null

  datatype Category = Category(categoryId: int, categoryName: string)

  /** The items of order `orderId` as a save stores them: the k-th item gets
      the item key `firstId + k` and the order's key as its foreign key. */
  function KeyItems(items: seq<OrderItem>, orderId: int, firstId: int): (r: seq<OrderItem>)
    ensures |r| == |items|
    ensures forall k :: 0 <= k < |items| ==> r[k] == items[k].(orderItemId := firstId + k, orderId := orderId)
  {
    seq(|items|, k requires 0 <= k < |items| => items[k].(orderItemId := firstId + k, orderId := orderId))
  }

  // Primary keys, as named functions so that frame predicates can mention them.
  function UserKey(u: User): int { u.userId }
  function WalletKey(w: Wallet): int { w.id }
  function OrderKey(o: Order): int { o.orderId }
  function TransactionKey(t: CustomerTransaction): int { t.customerTransactionId }
  function ProductKey(p: Product): int { p.productId }

  /** Every key is positive, below the next value of the table's identity
      counter, and no two rows share a key. */
  ghost predicate KeysFresh<T>(rows: seq<T>, key: T -> int, next: int) {
    && 0 < next
    && (forall i :: 0 <= i < |rows| ==> 0 < key(rows[i]) < next)
    && (forall i, j :: 0 <= i < j < |rows| ==> key(rows[i]) != key(rows[j]))
  }

  lemma KeysFreshAppend<T>(rows: seq<T>, key: T -> int, next: int, row: T)
    requires KeysFresh(rows, key, next) && key(row) == next
    ensures KeysFresh(rows + [row], key, next + 1)
  {
  }

  lemma KeysFreshRemove<T>(rows: seq<T>, key: T -> int, next: int, i: nat)
    requires KeysFresh(rows, key, next) && i < |rows|
    ensures KeysFresh(RemoveAt(rows, i), key, next)
  {
    var r := RemoveAt(rows, i);
    forall a, b | 0 <= a < b < |r| ensures key(r[a]) != key(r[b]) {
      var a' := if a < i then a else a + 1;
      var b' := if b < i then b else b + 1;
      assert r[a] == rows[a'] && r[b] == rows[b'] && a' < b';
    }
  }

  lemma KeysFreshReplace<T>(rows: seq<T>, key: T -> int, next: int, i: nat, row: T)
    requires KeysFresh(rows, key, next) && i < |rows| && key(row) == key(rows[i])
    ensures KeysFresh(rows[i := row], key, next)
  {
  }

  // `FindAsync(id)` and the `FirstOrDefault` queries of the controllers.
  function FindUser(users: seq<User>, id: int): Option<nat> {
    FirstIndex(users, (u: User) => u.userId == id)
  }
  function FindUserByEmail(users: seq<User>, email: string): Option<nat> {
    FirstIndex(users, (u: User) => u.userEmail == email)
  }
  function FindUserByName(users: seq<User>, name: string, surname: string): Option<nat> {
    FirstIndex(users, (u: User) => u.name == name && u.surname == surname)
  }
  function FindWallet(wallets: seq<Wallet>, id: int): Option<nat> {
    FirstIndex(wallets, (w: Wallet) => w.id == id)
  }
  function FindWalletOfUser(wallets: seq<Wallet>, userId: int): Option<nat> {
    FirstIndex(wallets, (w: Wallet) => w.userId == userId)
  }
  function FindOrder(orders: seq<Order>, id: int): Option<nat> {
    FirstIndex(orders, (o: Order) => o.orderId == id)
  }
  function FindTransaction(transactions: seq<CustomerTransaction>, id: int): Option<nat> {
    FirstIndex(transactions, (t: CustomerTransaction) => t.customerTransactionId == id)
  }
  function FindProduct(products: seq<Product>, id: int): Option<nat> {
    FirstIndex(products, (p: Product) => p.productId == id)
  }
  predicate CategoryExists(categories: seq<Category>, id: int) {
    FirstIndex(categories, (c: Category) => c.categoryId == id).Some?
  }

  /** The wallet table after row `i` is given the balance `balance`. */
  function SetBalance(wallets: seq<Wallet>, i: nat, balance: Money): (r: seq<Wallet>)
    requires i < |wallets|
    ensures |r| == |wallets|
    ensures r[i] == wallets[i].(balance := balance)
    ensures forall j :: 0 <= j < |wallets| && j != i ==> r[j] == wallets[j]
  {
    wallets[i := wallets[i].(balance := balance)]
  }

  /** `wallet.Balance += amount` on row `i`. */
  function Credit(wallets: seq<Wallet>, i: nat, amount: Money): (r: seq<Wallet>)
    requires i < |wallets|
    ensures |r| == |wallets| && r[i].balance == wallets[i].balance + amount
    ensures r[i].id == wallets[i].id && r[i].userId == wallets[i].userId
    ensures forall j :: 0 <= j < |wallets| && j != i ==> r[j] == wallets[j]
  {
    SetBalance(wallets, i, wallets[i].balance + amount)
  }

  /** `wallet.Balance -= amount` on row `i`. */
  function Debit(wallets: seq<Wallet>, i: nat, amount: Money): (r: seq<Wallet>)
    requires i < |wallets|
    ensures |r| == |wallets| && r[i].balance == wallets[i].balance - amount
    ensures r[i].id == wallets[i].id && r[i].userId == wallets[i].userId
    ensures forall j :: 0 <= j < |wallets| && j != i ==> r[j] == wallets[j]
  {
    SetBalance(wallets, i, wallets[i].balance - amount)
  }

  /** The money held in all wallets together. */
  ghost function TotalBalance(wallets: seq<Wallet>): Money {
    if |wallets| == 0 then 0.0 else wallets[0].balance + TotalBalance(wallets[1..])
  }

  /** Setting one balance changes the money held in all wallets by exactly the
      difference between the new and the old balance of that wallet. */
  lemma {:induction false} TotalBalanceAfterSetBalance(wallets: seq<Wallet>, i: nat, balance: Money)
    requires i < |wallets|
    ensures TotalBalance(SetBalance(wallets, i, balance))
         == TotalBalance(wallets) - wallets[i].balance + balance
  {
    var r := SetBalance(wallets, i, balance);
    if i > 0 {
      assert r[1..] == SetBalance(wallets[1..], i - 1, balance);
      TotalBalanceAfterSetBalance(wallets[1..], i - 1, balance);
    } else {
      assert r[1..] == wallets[1..];
    }
  }

  /** Two credits of `a` and then `b` leave the table exactly as one credit of
      `a + b`: the wallet ends at its old balance plus both amounts. */
  lemma CreditTwice(wallets: seq<Wallet>, i: nat, a: Money, b: Money)
    requires i < |wallets|
    ensures Credit(Credit(wallets, i, a), i, b) == Credit(wallets, i, a + b)
    ensures Credit(Credit(wallets, i, a), i, b)[i].balance == wallets[i].balance + a + b
  {
  }

  /** A debit that the balance covers leaves a balance that is not negative,
      and moves exactly `amount` out of the wallets. */
  lemma CoveredDebit(wallets: seq<Wallet>, i: nat, amount: Money)
    requires i < |wallets| && wallets[i].balance >= amount
    ensures Debit(wallets, i, amount)[i].balance >= 0.0
    ensures Debit(wallets, i, amount)[i].balance == wallets[i].balance - amount
    ensures TotalBalance(Debit(wallets, i, amount)) == TotalBalance(wallets) - amount
  {
    TotalBalanceAfterSetBalance(wallets, i, wallets[i].balance - amount);
  }
}

/** The database context every controller is given: one table per entity,
    each kept in insertion order, and the identity counter that generates the
    next primary key of each table. */
module Data {
  import opened Common
  import opened Models

  /** The whole content of the database as one value, for stating what an
      action leaves unchanged. */
  datatype Store = Store(
    users: seq<User>,
    wallets: seq<Wallet>,
    orders: seq<Order>,
    transactions: seq<CustomerTransaction>,
    products: seq<Product>,
    categories: seq<Category>,
    nextUserId: int,
    nextWalletId: int,
    nextOrderId: int,
    nextOrderItemId: int,
    nextTransactionId: int,
    nextProductId: int)

  class DataContext {
    var users: seq<User>
    var wallets: seq<Wallet>
    var orders: seq<Order>
    var transactions: seq<CustomerTransaction>
    var products: seq<Product>
    var categories: seq<Category>
    var nextUserId: int
    var nextWalletId: int
    var nextOrderId: int
    var nextOrderItemId: int
    var nextTransactionId: int
    var nextProductId: int

    /** Primary keys are positive, unique, and below their table's counter, so
        the counter's value is always a fresh key. */
    ghost predicate Valid()
      reads this
    {
      && KeysFresh(users, UserKey, nextUserId)
      && KeysFresh(wallets, WalletKey, nextWalletId)
      && KeysFresh(orders, OrderKey, nextOrderId)
      && KeysFresh(transactions, TransactionKey, nextTransactionId)
      && KeysFresh(products, ProductKey, nextProductId)
      && 0 < nextOrderItemId
    }

    function Contents(): Store
      reads this
    {
      Store(users, wallets, orders, transactions, products, categories,
            nextUserId, nextWalletId, nextOrderId, nextOrderItemId, nextTransactionId, nextProductId)
    }

    /** An empty database whose only reference data is `categories` (the
        category table is filled by a controller that is not part of this model). */
    constructor (categories: seq<Category>)
      ensures Valid()
      ensures Contents() == Store([], [], [], [], [], categories, 1, 1, 1, 1, 1, 1)
    {
      users, wallets, orders, transactions, products := [], [], [], [], [];
      this.categories := categories;
      nextUserId, nextWalletId, nextOrderId, nextOrderItemId, nextTransactionId, nextProductId := 1, 1, 1, 1, 1, 1;
    }

    // Each save below is one `Add`, `Update` or `Remove` on a table followed
    // by `SaveChangesAsync`: an added row gets the next key of its table.

    method AddUser(u: User) returns (id: int)
      requires Valid()
      modifies this
      ensures Valid() && id == old(nextUserId)
      ensures Contents() == old(Contents()).(users := old(users) + [u.(userId := id)], nextUserId := id + 1)
    {
      id := nextUserId;
      KeysFreshAppend(users, UserKey, nextUserId, u.(userId := id));
      users := users + [u.(userId := id)];
      nextUserId := nextUserId + 1;
    }

    method SaveUser(k: nat, u: User)
      requires Valid() && k < |users| && u.userId == users[k].userId
      modifies this
      ensures Valid()
      ensures Contents() == old(Contents()).(users := old(users)[k := u])
    {
      KeysFreshReplace(users, UserKey, nextUserId, k, u);
      users := users[k := u];
    }

    method RemoveUser(k: nat)
      requires Valid() && k < |users|
      modifies this
      ensures Valid()
      ensures Contents() == old(Contents()).(users := RemoveAt(old(users), k))
    {
      KeysFreshRemove(users, UserKey, nextUserId, k);
      users := RemoveAt(users, k);
    }

    method AddWallet(w: Wallet) returns (id: int)
      requires Valid()
      modifies this
      ensures Valid() && id == old(nextWalletId)
      ensures Contents() == old(Contents()).(wallets := old(wallets) + [w.(id := id)], nextWalletId := id + 1)
    {
      id := nextWalletId;
      KeysFreshAppend(wallets, WalletKey, nextWalletId, w.(id := id));
      wallets := wallets + [w.(id := id)];
      nextWalletId := nextWalletId + 1;
    }

    /** Stores `balance` as the balance of wallet row `i`. */
    method SaveBalance(i: nat, balance: Money)
      requires Valid() && i < |wallets|
      modifies this
      ensures Valid()
      ensures Contents() == old(Contents()).(wallets := SetBalance(old(wallets), i, balance))
    {
      KeysFreshReplace(wallets, WalletKey, nextWalletId, i, wallets[i].(balance := balance));
      wallets := SetBalance(wallets, i, balance);
    }

    method RemoveWallet(i: nat)
      requires Valid() && i < |wallets|
      modifies this
      ensures Valid()
      ensures Contents() == old(Contents()).(wallets := RemoveAt(old(wallets), i))
    {
      KeysFreshRemove(wallets, WalletKey, nextWalletId, i);
      wallets := RemoveAt(wallets, i);
    }

    /** Inserts the order and the items it owns: the order gets the next order
        key, its items the next item keys and the order's key. */
    method AddOrder(o: Order) returns (id: int)
      requires Valid()
      modifies this
      ensures Valid() && id == old(nextOrderId)
      ensures Contents() == old(Contents()).(
                orders := old(orders) + [o.(orderId := id, orderItems := KeyItems(o.orderItems, id, old(nextOrderItemId)))],
                nextOrderId := id + 1,
                nextOrderItemId := old(nextOrderItemId) + |o.orderItems|)
    {
      id := nextOrderId;
      var row := o.(orderId := id, orderItems := KeyItems(o.orderItems, id, nextOrderItemId));
      KeysFreshAppend(orders, OrderKey, nextOrderId, row);
      orders := orders + [row];
      nextOrderId := nextOrderId + 1;
      nextOrderItemId := nextOrderItemId + |o.orderItems|;
    }

    /** Updates order row `k` to `o`; the items `o` owns replace the old ones
        and get fresh item keys. */
    method SaveOrder(k: nat, o: Order)
      requires Valid() && k < |orders| && o.orderId == orders[k].orderId
      modifies this
      ensures Valid()
      ensures Contents() == old(Contents()).(
                orders := old(orders)[k := o.(orderItems := KeyItems(o.orderItems, o.orderId, old(nextOrderItemId)))],
                nextOrderItemId := old(nextOrderItemId) + |o.orderItems|)
    {
      var row := o.(orderItems := KeyItems(o.orderItems, o.orderId, nextOrderItemId));
      KeysFreshReplace(orders, OrderKey, nextOrderId, k, row);
      orders := orders[k := row];
      nextOrderItemId := nextOrderItemId + |o.orderItems|;
    }

    method RemoveOrder(k: nat)
      requires Valid() && k < |orders|
      modifies this
      ensures Valid()
      ensures Contents() == old(Contents()).(orders := RemoveAt(old(orders), k))
    {
      KeysFreshRemove(orders, OrderKey, nextOrderId, k);
      orders := RemoveAt(orders, k);
    }

    method AddTransaction(t: CustomerTransaction) returns (id: int)
      requires Valid()
      modifies this
      ensures Valid() && id == old(nextTransactionId)
      ensures Contents() == old(Contents()).(
                transactions := old(transactions) + [t.(customerTransactionId := id)],
                nextTransactionId := id + 1)
    {
      id := nextTransactionId;
      KeysFreshAppend(transactions, TransactionKey, nextTransactionId, t.(customerTransactionId := id));
      transactions := transactions + [t.(customerTransactionId := id)];
      nextTransactionId := nextTransactionId + 1;
    }

    method RemoveTransaction(k: nat)
      requires Valid() && k < |transactions|
      modifies this
      ensures Valid()
      ensures Contents() == old(Contents()).(transactions := RemoveAt(old(transactions), k))
    {
      KeysFreshRemove(transactions, TransactionKey, nextTransactionId, k);
      transactions := RemoveAt(transactions, k);
    }

    method AddProduct(p: Product) returns (id: int)
      requires Valid()
      modifies this
      ensures Valid() && id == old(nextProductId)
      ensures Contents() == old(Contents()).(products := old(products) + [p.(productId := id)], nextProductId := id + 1)
    {
      id := nextProductId;
      KeysFreshAppend(products, ProductKey, nextProductId, p.(productId := id));
      products := products + [p.(productId := id)];
      nextProductId := nextProductId + 1;
    }

    method SaveProduct(k: nat, p: Product)
      requires Valid() && k < |products| && p.productId == products[k].productId
      modifies this
      ensures Valid()
      ensures Contents() == old(Contents()).(products := old(products)[k := p])
    {
      KeysFreshReplace(products, ProductKey, nextProductId, k, p);
      products := products[k := p];
    }

    method RemoveProduct(k: nat)
      requires Valid() && k < |products|
      modifies this
      ensures Valid()
      ensures Contents() == old(Contents()).(products := RemoveAt(old(products), k))
    {
      KeysFreshRemove(products, ProductKey, nextProductId, k);
      products := RemoveAt(products, k);
    }
  }
}

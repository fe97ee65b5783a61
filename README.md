# Kiosk backend: a Dafny model of the five CRUD controllers

The system is the ASP.NET Core backend of a kiosk shop. Users register with a
company email address and get a wallet. They top up the wallet, buy products
with it, and can read their ledger of transactions. Administrators maintain
the catalogue of products. This project models, in Dafny, what the five core
controllers (orders, wallets, ledger transactions, products, users) do to the
database, and proves what they promise.

Layout, one module per file:

- `common.dfy` (`Common`): `Option`, the answered `Status`, `Result`, money as
  exact `real`, and `FirstIndex`, which models `FirstOrDefault`/`FindAsync`
  as "the first row in table order that matches".
- `text.dfy` (`Text`): the .NET string operations the controllers use, over
  ASCII. This covers white space, case mapping and case-insensitive
  comparison, plus how a regular expression's `$` also matches before a
  final line feed.
- `models.dfy` (`Models`): the entities as datatypes (User, Wallet, Order,
  OrderItem, CustomerTransaction, Product, Category). It also holds the key
  lookups, the invariant that keys are unique and below the next identity
  value, and balance arithmetic with the sum of all balances.
- `data_context.dfy` (`Data`): the database as the class `DataContext`. It
  has one `seq` field per table and one identity counter per table. Each
  method is one table operation followed by `SaveChanges`, and each states
  the whole new `Contents()`.
- One module per controller: each action that writes is a method on a
  `DataContext`, and each query is a function over the tables.

What is proved, in summary:

- Orders: an order is accepted exactly when it has items and the buyer's
  wallet covers the total. Then the wallet is debited and stays non-negative,
  and the sum of all balances falls by exactly the total.
- Wallets: a deposit credits exactly one wallet. Two credits of one wallet
  leave the table as one credit of their sum.
- Ledger: both history queries return exactly the matching rows, each as
  often as it is stored, newest first. A "TopUp" credits exactly the named
  wallet.
- Products: paging neither skips nor repeats a row. The checks reject in the
  source's fixed order. Accepted image names end in an allowed extension.
- Users: over ASCII, the email and password rules follow the .NET regular
  expressions exactly, including how `.` and `$` treat a line feed. The admin role goes to exactly the emails whose local part ends
  in "admin". A freshly registered user can log in with their credentials.

## Model

| member | source | states |
|---|---|---|
| Common.FirstIndex | Controllers/OrderController.cs:116 | It returns the index of the first row that satisfies the predicate, and None exactly when no row satisfies it. |
| Common.Filter | Controllers/CustomerTransactionController.cs:99 | the rows kept are exactly those satisfying the predicate, each as often as in the input |
| Common.RemoveAt | Controllers/WalletController.cs:219-220 | removing a row shifts the later rows down by one and removes exactly that row from the multiset |
| Models.KeyItems | Controllers/OrderController.cs:131-132 | the saved items keep their number, order and fields; item `k` gets the key `firstId + k` and the order's key |
| Models.SetBalance | Controllers/WalletController.cs:200 | only row `i` changes, and only in its balance |
| Models.Credit | Controllers/WalletController.cs:164 | the wallet row keeps its key and owner and gains exactly the amount; every other row is unchanged |
| Models.Debit | Controllers/OrderController.cs:127 | the wallet row keeps its key and owner and loses exactly the amount; every other row is unchanged |
| Models.TotalBalanceAfterSetBalance | Controllers/WalletController.cs:164 | setting one balance changes the sum of all balances by the difference between the new and old value |
| Models.CreditTwice | Controllers/WalletController.cs:164 | two deposits into one wallet give the same table as one deposit of their sum |
| Models.CoveredDebit | Controllers/OrderController.cs:122-127 | a debit the balance covers leaves that wallet non-negative, lowers its balance by exactly the amount, and lowers the sum of balances by exactly the amount |
| Models.TotalBalance | Controllers/WalletController.cs:164 | the sum of the balances of all wallet rows, the quantity the balance lemmas are about |
| Data.DataContext.AddUser | Controllers/UserController.cs:93-94 | appends the user under the next identity key, keeping every user key unique and below the counter |
| Data.DataContext.SaveUser | Controllers/UserController.cs:147-148 | replaces exactly row `k` with the given user of the same key |
| Data.DataContext.RemoveUser | Controllers/UserController.cs:165-166 | removes exactly row `k`, nothing else |
| Data.DataContext.AddWallet | Controllers/WalletController.cs:85-86 | appends the wallet under the next identity key |
| Data.DataContext.SaveBalance | Controllers/WalletController.cs:164-167 | stores the new balance of wallet row `i`, nothing else |
| Data.DataContext.RemoveWallet | Controllers/WalletController.cs:219-220 | removes exactly wallet row `i` |
| Data.DataContext.AddOrder | Controllers/OrderController.cs:131-132 | appends the order under the next key; its items get consecutive keys from the item counter, which only grows, and the order's key |
| Data.DataContext.SaveOrder | Controllers/OrderController.cs:200-208 | replaces row `k`, its old items dropped and the new items keyed from the item counter under that order |
| Data.DataContext.RemoveOrder | Controllers/OrderController.cs:225-226 | removes exactly order row `k`, together with the items it owns |
| Data.DataContext.AddTransaction | Controllers/OrderController.cs:145-151 | appends the ledger row under the next identity key |
| Data.DataContext.RemoveTransaction | Controllers/CustomerTransactionController.cs:182-183 | removes exactly ledger row `k` |
| Data.DataContext.AddProduct | Controllers/ProductController.cs:141-142 | appends the product under the next identity key |
| Data.DataContext.SaveProduct | Controllers/ProductController.cs:223 | replaces exactly product row `k`, keeping its key |
| Data.DataContext.RemoveProduct | Controllers/ProductController.cs:258-259 | removes exactly product row `k` |
| OrderController.HasItems | Controllers/OrderController.cs:95 | the item list is present and not empty |
| OrderController.CreatedItems | Controllers/OrderController.cs:106-111 | one item per requested line, in request order, with its product, quantity and the client's subtotal |
| OrderController.ReplacementItems | Controllers/OrderController.cs:200-206 | one replacement item per requested line, in request order, with its product and quantity and the subtotal 0 |
| OrderController.Covers | Controllers/OrderController.cs:115-125 | the buyer has a wallet (the first with that user) and its balance is at least the total |
| OrderController.Settled | Controllers/OrderController.cs:101-151 | the earlier orders and ledger rows are kept; the new order has the next key, the buyer and one item per request line, each under that order and copying the line's product, quantity and client subtotal; the new ledger row links to that order, names the debited wallet, carries the order total, and has type "Order" and status "Completed"; the wallet loses exactly the total; every other wallet, the users, products and categories are unchanged; the order has the request time and status and the unassigned transaction link 0 |
| OrderController.CreateOrder | Controllers/OrderController.cs:93-151 | Ok exactly when the order has items and the buyer has a wallet covering the total; a rejection changes nothing; on Ok the database is `Settled`: the wallet is debited (its balance stays non-negative, and the balance sum falls by the total), and the order with its items and one "Order" ledger row linked to it are appended |
| OrderController.SettleOrder | Controllers/OrderController.cs:127-151 | the debit and the two saves together give exactly the `Settled` database |
| OrderController.UpdateOrder | Controllers/OrderController.cs:180-210 | BadRequest exactly on an id mismatch, NotFound exactly for a missing order, both changing nothing; otherwise the order's fields are overwritten and its items replaced; no wallet and no ledger row changes |
| OrderController.DeleteOrder | Controllers/OrderController.cs:215-228 | NotFound exactly for a missing order; otherwise exactly that order is removed and no order with that id is left; wallets and ledger untouched (no refund) |
| WalletController.CreateWallet | Controllers/WalletController.cs:76-95 | appends a wallet with the given owner and balance under a key no earlier wallet has |
| WalletController.GetWalletByName | Controllers/WalletController.cs:98-130 | BadRequest exactly for a blank name or surname; success exactly when the first user with that name and surname has a wallet, answering that user and their first wallet; NotFound otherwise |
| WalletController.IsValidDeposit | Controllers/WalletController.cs:153 | the deposit amount is at least 0.01, the range the deposit request's model state enforces |
| WalletController.AddFunds | Controllers/WalletController.cs:149-173 | BadRequest exactly when the amount is below 0.01, NotFound exactly for a missing wallet; otherwise exactly that wallet is credited, the new balance is answered, and the balance sum rises by the amount |
| WalletController.UpdateWalletByUserId | Controllers/WalletController.cs:191-205 | BadRequest exactly on a user mismatch, NotFound exactly when the user has no wallet; otherwise only the balance of that user's wallet is overwritten |
| WalletController.DeleteWallet | Controllers/WalletController.cs:211-222 | NotFound exactly for a missing wallet; otherwise exactly that wallet row is removed |
| CustomerTransactionController.InsertByDate | Controllers/CustomerTransactionController.cs:100 | inserting one row into a newest-first list keeps it newest first and adds exactly that row |
| CustomerTransactionController.SortByDateDesc | Controllers/CustomerTransactionController.cs:100 | the result is newest first and a permutation of the input |
| CustomerTransactionController.WalletTransactions | Controllers/CustomerTransactionController.cs:98-100 | newest first, only rows of that wallet, and every row of that wallet as often as stored |
| CustomerTransactionController.GetTransactionsByWallet | Controllers/CustomerTransactionController.cs:96-112 | one projected row per ledger row of that wallet, newest first |
| CustomerTransactionController.AsDto | Controllers/CustomerTransactionController.cs:101-110 | the wallet history shows a row's key, amount, type, date, status and order link, and leaves the wallet and user fields at 0 |
| CustomerTransactionController.UserRows | Controllers/CustomerTransactionController.cs:72-75 | newest first, exactly the rows whose wallet belongs to the user, each as often as stored |
| CustomerTransactionController.OwnedBy | Controllers/CustomerTransactionController.cs:74 | a row belongs to the user when the wallet it names exists and is that user's |
| CustomerTransactionController.SummaryOf | Controllers/CustomerTransactionController.cs:82-87 | a summary is shown exactly for a row linked to an existing order, and it gives that order's key, total and date |
| CustomerTransactionController.AsUserTransaction | Controllers/CustomerTransactionController.cs:76-89 | the user history shows a row's key, type, amount, date and status beside its order summary |
| CustomerTransactionController.GetUserTransactions | Controllers/CustomerTransactionController.cs:66-92 | NotFound exactly when the user has no wallet; otherwise the user's rows, newest first, each with its order |
| CustomerTransactionController.UserRowsOfSingleWallet | Controllers/CustomerTransactionController.cs:68-75 | with unique wallet keys and one wallet per user, the user history holds exactly the rows of that wallet's history |
| CustomerTransactionController.WithRows | Controllers/CustomerTransactionController.cs:120-154 | the earlier rows are kept; the new order belongs to the sent user, carries the amount, no items, and status true exactly for a "TopUp"; the new ledger row has the next key, links to that order, and copies wallet, amount, type, date and status from the request; no wallet changes |
| CustomerTransactionController.Recorded | Controllers/CustomerTransactionController.cs:118-167 | one order and one ledger row linked to it are added; a "TopUp" credits exactly the named wallet by the amount; any other type leaves the wallets unchanged |
| CustomerTransactionController.CreateTransaction | Controllers/CustomerTransactionController.cs:118-171 | NotFound exactly for a "TopUp" naming a missing wallet, with nothing stored; otherwise the order and the ledger row linked to it are recorded; a "TopUp" credits exactly that wallet (the balance sum rises by the amount); any other type leaves every wallet unchanged |
| CustomerTransactionController.RecordTopUp | Controllers/CustomerTransactionController.cs:157-167 | the credit followed by the two rows gives the recorded database, and the balance sum rises by the amount |
| CustomerTransactionController.RecordRows | Controllers/CustomerTransactionController.cs:124-154 | appends exactly the order and the ledger row that carries that order's key |
| CustomerTransactionController.DeleteTransaction | Controllers/CustomerTransactionController.cs:176-185 | NotFound exactly for a missing row; otherwise exactly that ledger row is removed and no wallet balance changes |
| ProductController.NormalizePage | Controllers/ProductController.cs:26 | the page used is at least 1, and equals the request when that is at least 1 |
| ProductController.NormalizeSize | Controllers/ProductController.cs:27 | the size used is within 1..100, equals the request when that is within range, and is 10 otherwise |
| ProductController.PageOf | Controllers/ProductController.cs:31-32 | at most `size` rows, exactly the run starting at the skipped count, of the length `Skip`/`Take` gives |
| ProductController.PageContinues | Controllers/ProductController.cs:31-32 | a page continues exactly where the rows before it end |
| ProductController.FirstPagesArePrefix | Controllers/ProductController.cs:31-32 | the first `n` pages together are exactly the first `n * size` rows: no row is skipped or repeated |
| ProductController.ImageUrl | Controllers/ProductController.cs:41-43 | no link for a null or empty path; otherwise the origin, a slash and the path, with every back slash turned into a forward slash and every other character kept |
| ProductController.AsView | Controllers/ProductController.cs:33-45 | the catalogue view shows the product's fields with the image link in place of the stored path |
| ProductController.GetAllProducts | Controllers/ProductController.cs:24-49 | at most the normalised size (and at most 100) rows, each the view of the row at that place on the page |
| ProductController.GetProduct | Controllers/ProductController.cs:54-77 | NotFound exactly when no product has the id; otherwise the view of that product |
| ProductController.LastDot | Controllers/ProductController.cs:106 | the position of a '.' after which the name has no '.' and no separator; none when every '.' is followed by a separator |
| ProductController.GetExtension | Controllers/ProductController.cs:106 | empty, or a suffix of the name starting with '.' whose other characters are neither '.' nor a separator |
| ProductController.LastDotAfterTail | Controllers/ProductController.cs:106 | a '.' that is followed only by characters other than '.' and separators is the one found |
| ProductController.ExtensionOfSuffix | Controllers/ProductController.cs:106 | a name ending in '.' plus a tail without dots and separators has exactly that extension |
| ProductController.AllowedNameEndsWithAllowedExtension | Controllers/ProductController.cs:106-109 | an accepted file name ends, ignoring case, in ".png", ".jpg" or ".jpeg" |
| ProductController.NameEndingInAllowedExtensionIsAllowed | Controllers/ProductController.cs:106-109 | a file name that ends, ignoring case, in ".png", ".jpg" or ".jpeg" is accepted, the converse of the row above |
| ProductController.IsAllowedExtension | Controllers/ProductController.cs:104-108 | the lower-cased extension is one of ".png", ".jpg" and ".jpeg" |
| ProductController.ImagePath | Controllers/ProductController.cs:115-123 | the stored path is `images/products/`, the fresh name and the upload's own extension lower-cased; for an accepted file it therefore ends in an allowed extension |
| ProductController.FirstFailure | Controllers/ProductController.cs:85-109 | no rejection exactly when every check passes; a rejection is a check of the list that the form fails |
| ProductController.Fails | Controllers/ProductController.cs:85-109 | blank name or description, price not above 0, negative quantity, unknown category, or a disallowed extension of a sent file (of a nonempty one on create) |
| ProductController.FirstFailureCons | Controllers/ProductController.cs:85-109 | the first check is decided before the rest |
| ProductController.CreateCheckOrder | Controllers/ProductController.cs:85-109 | each rejection of the create form is answered exactly when its check fails and every earlier check passes |
| ProductController.UpdateCheckOrder | Controllers/ProductController.cs:169-198 | the same for the update form: no description check, and the extension checked for any file |
| ProductController.CreateRejection | Controllers/ProductController.cs:85-109 | the if-chain answers exactly the first failing create check |
| ProductController.NewProduct | Controllers/ProductController.cs:101-139 | the stored product has the form's name, description, price, quantity, availability and category, supplier 1, the save time, and the path `ImagePath(guid, file name)` exactly when a nonempty file was sent |
| ProductController.CreateProduct | Controllers/ProductController.cs:81-157 | Unauthorized exactly for a caller outside the "admin" role; then BadRequest exactly when a check fails; both store nothing; otherwise the new product is appended under the next key |
| ProductController.UpdatedProduct | Controllers/ProductController.cs:182-220 | the key is kept; name, description, price, quantity, category and supplier come from the form and the save time is recorded; availability is recomputed as quantity > 0; the image becomes `ImagePath(guid, file name)` when a file is sent and is kept otherwise |
| ProductController.UpdateRejection | Controllers/ProductController.cs:169-198 | the if-chain answers exactly the first failing update check |
| ProductController.UpdateProduct | Controllers/ProductController.cs:161-223 | Unauthorized exactly for a caller outside the "admin" role; then NotFound exactly for a missing product, before any check; then BadRequest exactly when an update check fails; all three change nothing; otherwise only that product is replaced, and it is available exactly when its quantity is positive |
| ProductController.DeleteProduct | Controllers/ProductController.cs:248-259 | Unauthorized exactly for a caller outside the "admin" role; then NotFound exactly for a missing product; otherwise exactly that row is removed and no product with that id is left |
| Text.IsBlank | Controllers/WalletController.cs:102 | `string.IsNullOrWhiteSpace` on a non-null string: every character is ASCII white space |
| Text.ToLower | Controllers/ProductController.cs:106 | same length, each character lower-cased |
| Text.EqualsIgnoreCase | Controllers/UserController.cs:67 | same length and equal character by character under ordinal case-insensitive comparison |
| Text.ContainsIgnoreCase | Controllers/UserController.cs:78 | the second string occurs at some offset of the first under ordinal case-insensitive comparison |
| Text.ReplaceBackslashes | Controllers/ProductController.cs:42 | same length, no back slash left, every other character kept |
| Text.DropFinalNewline | Controllers/UserController.cs:67 | an input ending in a line feed loses exactly that one final line feed, and any other input is returned unchanged, which is the text `$` anchors against |
| Text.UpperIsAtOnlyForAt | Controllers/UserController.cs:67 | under case-insensitive comparison only '@' matches '@' |
| UserController.ValidEmailIsNotBlank | Controllers/UserController.cs:67 | an accepted email is not blank |
| UserController.IsValidEmail | Controllers/UserController.cs:67 | a nonempty local part without '@' and white space, then "@singular.com" in any case, then at most one final line feed |
| UserController.RoleFor | Controllers/UserController.cs:78 | role 1 exactly when "admin@singular.com" occurs in the email ignoring case, else role 2 |
| UserController.OnlyAtIsDomainAt | Controllers/UserController.cs:67 | an accepted email has exactly one '@', the one that opens the domain |
| UserController.AdminRoleIffLocalPartEndsWithAdmin | Controllers/UserController.cs:67-78 | for an accepted email, the admin role is given exactly when the local part ends in "admin", ignoring case |
| UserController.AdminLocalPartGivesAdminRole | Controllers/UserController.cs:67-78 | an accepted email whose local part ends in "admin" gets the admin role |
| UserController.AdminRoleNeedsAdminLocalPart | Controllers/UserController.cs:67-78 | an accepted email with the admin role has a local part ending in "admin" |
| UserController.PasswordMatches | Controllers/UserController.cs:73 | one line of at least 8 characters, optionally followed by one line feed, holding a lower-case letter, an upper-case letter and a digit, and a symbol unless the final line feed serves as one |
| UserController.IsValidPassword | Controllers/UserController.cs:72-73 | the password is not blank and the regular expression matches |
| UserController.AcceptedPasswordIsStrong | Controllers/UserController.cs:72-76 | an accepted password has at least 8 characters, a lower-case letter, an upper-case letter, a digit and a symbol |
| UserController.StrongPasswordIsAccepted | Controllers/UserController.cs:72-76 | a password without line feeds and with those five properties is accepted |
| UserController.MatchingPasswordIsNotBlank | Controllers/UserController.cs:72-73 | the blank test at line 72 rejects nothing the regular expression accepts |
| UserController.NewUser | Controllers/UserController.cs:78-91 | the stored user is active, has the role its email selects, copies user name, name, surname and email, and holds `hash(password)` |
| UserController.CreateUser | Controllers/UserController.cs:63-104 | BadRequest exactly for a bad email or password, storing nothing; otherwise the user and then a wallet with balance 0 for that user are appended |
| UserController.UpdatedUser | Controllers/UserController.cs:130-145 | key and active flag kept; user name, name, surname and email taken from the request; role recomputed from the new email; password hash replaced exactly when a password is given |
| UserController.UpdateUser | Controllers/UserController.cs:117-151 | NotFound exactly for a missing user; BadRequest exactly for a bad email or a given password that does not match; both change nothing; otherwise only that user row is replaced |
| UserController.DeleteUser | Controllers/UserController.cs:155-175 | NotFound exactly for a missing user; otherwise exactly that user row is removed (wallet and orders stay) |
| UserController.Login | Controllers/UserController.cs:179-210 | BadRequest exactly for a blank field or invalid model state; Unauthorized exactly for an unknown email or a failed verification; success answers the first user with exactly that email |
| UserController.LoginAfterRegistration | Controllers/UserController.cs:80-104 | after a registration, logging in with the same email and password answers the new user's id, name and role |

## Left out

- Input and output: image files are not written or deleted, console logging is not modelled, and HTTP response bodies and messages are not modelled. Only the status and the stored rows are.
- BCrypt's `HashPassword` and `Verify` are function parameters, because the hashing library is not part of this model.
- The clock (`DateTime.Now`, `DateTime.UtcNow`) is a parameter.
- The GUID of an uploaded image name is a parameter.
- The request's scheme and host are a parameter (`origin`).
- Database behaviour beyond rows in key order is not modelled. Foreign-key rules are left out: deletes that a NoAction or Restrict rule would make SQL Server refuse, and inserts naming a missing row (an order item naming an unknown product, a ledger row of a type other than "TopUp" naming a missing wallet, a wallet for a missing user), all answer as the controller code does. Also left out are collation (the login email is compared exactly, not case-insensitively as SQL Server's default would) and unordered query results (tables are read in insertion order). The unique index on a wallet's user is not enforced.
- Saves are atomic in the model. A failure between the two saves of CreateOrder or CreateUser is not modelled, and neither is the 500 answer of the `catch` blocks.
- Concurrent requests are not modelled; each action runs alone.
- Automatic 400 answers of `[ApiController]` for DTO annotations (`[Required]`, `[Range]`, `[StringLength]`) are left out. The exceptions are AddFunds, whose 0.01 minimum is modelled, and Login, whose model state is a parameter.
- `decimal` precision and rounding are replaced by exact `real`. The `[Range(0.01, double.MaxValue)]` check on a deposit compares after conversion to `double`, so a decimal just below 0.01 that rounds to 0.01 is accepted there; the model compares exactly.
- 32-bit overflow of identity values and quantities is not modelled. Neither is the wrap-around of `(page - 1) * size` in GetAllProducts for a very large page number: the model skips the exact product.
- Authorization: the `[Authorize(Roles = "admin")]` verdict on CreateProduct, UpdateProduct and DeleteProduct is the parameter `callerIsAdmin`. How the framework turns a refusal into 401, 403 or an error (no authentication scheme is registered) is reduced to the status Unauthorized.
- Regular-expression classes and case mapping cover ASCII only. Unicode white space, digits, letters and culture-specific case folding are not modelled.
- `Path.GetExtension` treats both '/' and '\\' as separators, as on Windows. A drive-letter colon is not a separator here.
- Null strings are modelled as empty strings.
- The category, supplier and order-item controllers are not part of this model. Neither are the plain listing queries GetOrders, GetOrder, GetWallets, GetWallet, GetWalletByUserId, GetTransactions, GetTransaction, GetUsers and GetUser.
- OrderController.CreateOrder: the order's `CustomerTransactionId` is read before the ledger row has a key, so it is stored as 0. The model states that value rather than a link.
- OrderController.CreateOrder: a negative total passes the balance check and credits the wallet. This is modelled as written, not rejected.
- ProductController.UpdateProduct: on a rejected file extension, the tracked product has already received the new field values in memory; only the unchanged database is modelled.

/** Controllers/WalletController.cs: wallet creation, deposits, balance
    overwrite, lookup of a wallet by its owner's name, and deletion. */
module WalletController {
  import opened Common
  import opened Text
  import opened Models
  import opened Data

  /** The body of POST api/Wallet and PUT api/Wallet/user/{userId}. */
  datatype CreateWalletDto = CreateWalletDto(userId: int, balance: Money)

  /** What GET api/Wallet/user/name answers. */
  datatype WalletOwner = WalletOwner(walletId: int, userId: int, name: string, surname: string, balance: Money)

  /** `ModelState.IsValid` for an AddFundsDTO: the amount lies in the range
      [0.01, double.MaxValue] its annotation declares (every decimal is below
      double.MaxValue). */
  predicate IsValidDeposit(amount: Money) {
    amount >= 0.01
  }

  /** POST api/Wallet: stores a new wallet with the given owner and balance.
      The balance is not checked, and no ledger row is written. */
  method CreateWallet(db: DataContext, dto: CreateWalletDto) returns (status: Status, walletId: int)
    requires db.Valid()
    modifies db
    ensures db.Valid()
    ensures status == Ok && walletId == old(db.nextWalletId)
    ensures forall j :: 0 <= j < |old(db.wallets)| ==> old(db.wallets)[j].id != walletId
    ensures db.Contents() == old(db.Contents()).(
              wallets := old(db.wallets) + [Wallet(walletId, dto.userId, 0, dto.balance)],
              nextWalletId := walletId + 1)
  {
    walletId := db.AddWallet(Wallet(0, dto.userId, 0, dto.balance));
    status := Ok;
  }

  /** GET api/Wallet/user/name: the wallet of the first user with exactly this
      name and surname. */
  function GetWalletByName(users: seq<User>, wallets: seq<Wallet>, name: string, surname: string)
    : (r: Result<WalletOwner>)
    ensures r == Failure(BadRequest) <==> IsBlank(name) || IsBlank(surname)
    ensures !IsBlank(name) && !IsBlank(surname) && FindUserByName(users, name, surname).None?
            ==> r == Failure(NotFound)
    ensures r.Failure? ==> r.status in {BadRequest, NotFound}
    ensures r.Success? ==>
              && FindUserByName(users, name, surname).Some?
              && var u := users[FindUserByName(users, name, surname).value];
              && u.name == name && u.surname == surname
              && FindWalletOfUser(wallets, u.userId).Some?
              && var w := wallets[FindWalletOfUser(wallets, u.userId).value];
              && w.userId == u.userId
              && r.value == WalletOwner(w.id, u.userId, u.name, u.surname, w.balance)
    ensures r.Success? <==>
              && !IsBlank(name) && !IsBlank(surname)
              && FindUserByName(users, name, surname).Some?
              && FindWalletOfUser(wallets, users[FindUserByName(users, name, surname).value].userId).Some?
  {
    if IsBlank(name) || IsBlank(surname) then Failure(BadRequest)
    else match FindUserByName(users, name, surname)
      case None => Failure(NotFound)
      case Some(k) =>
        var u := users[k];
        match FindWalletOfUser(wallets, u.userId)
        case None => Failure(NotFound)
        case Some(j) => Success(WalletOwner(wallets[j].id, u.userId, u.name, u.surname, wallets[j].balance))
  }

  /** POST api/Wallet/{id}/addfunds: adds the amount to that wallet only and
      answers the new balance. No ledger row is written. */
  method AddFunds(db: DataContext, id: int, amount: Money) returns (status: Status, newBalance: Money)
    requires db.Valid()
    modifies db
    ensures db.Valid()
    ensures status == BadRequest <==> !IsValidDeposit(amount)
    ensures status == NotFound <==> IsValidDeposit(amount) && FindWallet(old(db.wallets), id).None?
    ensures status in {Ok, BadRequest, NotFound}
    ensures status != Ok ==> db.Contents() == old(db.Contents())
    ensures status == Ok ==>
              var i := FindWallet(old(db.wallets), id).value;
              && db.Contents() == old(db.Contents()).(wallets := Credit(old(db.wallets), i, amount))
              && newBalance == old(db.wallets)[i].balance + amount
              && TotalBalance(db.wallets) == TotalBalance(old(db.wallets)) + amount
  {
    newBalance := 0.0;
    if !IsValidDeposit(amount) {
      return BadRequest, newBalance;
    }
    var found := FindWallet(db.wallets, id);
    if found.None? {
      return NotFound, newBalance;
    }
    var i := found.value;
    newBalance := db.wallets[i].balance + amount;
    TotalBalanceAfterSetBalance(db.wallets, i, newBalance);
    db.SaveBalance(i, newBalance);
    status := Ok;
  }

  /** PUT api/Wallet/user/{userId}: overwrites the balance of the user's wallet
      and nothing else. */
  method UpdateWalletByUserId(db: DataContext, userId: int, dto: CreateWalletDto) returns (status: Status)
    requires db.Valid()
    modifies db
    ensures db.Valid()
    ensures status == BadRequest <==> userId != dto.userId
    ensures status == NotFound <==> userId == dto.userId && FindWalletOfUser(old(db.wallets), userId).None?
    ensures status in {Ok, BadRequest, NotFound}
    ensures status != Ok ==> db.Contents() == old(db.Contents())
    ensures status == Ok ==>
              var i := FindWalletOfUser(old(db.wallets), userId).value;
              && db.Contents() == old(db.Contents()).(wallets := SetBalance(old(db.wallets), i, dto.balance))
              && db.wallets[i].userId == userId
  {
    if userId != dto.userId {
      return BadRequest;
    }
    var found := FindWalletOfUser(db.wallets, userId);
    if found.None? {
      return NotFound;
    }
    db.SaveBalance(found.value, dto.balance);
    status := Ok;
  }

  /** DELETE api/Wallet/{id}: removes that wallet and no other row. */
  method DeleteWallet(db: DataContext, id: int) returns (status: Status)
    requires db.Valid()
    modifies db
    ensures db.Valid()
    ensures status == NotFound <==> FindWallet(old(db.wallets), id).None?
    ensures status in {Ok, NotFound}
    ensures status == NotFound ==> db.Contents() == old(db.Contents())
    ensures status == Ok ==>
              db.Contents() == old(db.Contents()).(wallets := RemoveAt(old(db.wallets), FindWallet(old(db.wallets), id).value))
  {
    var found := FindWallet(db.wallets, id);
    if found.None? {
      return NotFound;
    }
    db.RemoveWallet(found.value);
    status := Ok;
  }
}

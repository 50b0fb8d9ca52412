/**
 * `BankService`: opening an account, deposits, withdrawals and transfers on
 * the account ledger. `Deposit` and `Withdraw` each run in a database
 * transaction of their own; `Transfer` calls them one after the other, so a
 * transfer whose second half fails keeps its first half.
 */
module BankService {
  import opened Wrappers
  import opened GoArith
  import opened Models

  datatype BankError =
    | InvalidRequest
    | AccountNotFound
    | InsufficientFunds
    | SameAccount
    | AccountCreateFailed

  /** `TransactionRequest`; the validator admits only the three transaction types, which is all `TxType` has. */
  datatype TxRequest = TxRequest(accountId: Id, amount: real, kind: TxType)

  /** The `required` and `gt=0` tags of `TransactionRequest`. */
  predicate ValidTxRequest(req: TxRequest) {
    req.accountId != 0 && req.amount > 0.0
  }

  /* ------------------------------------------------------ money in total */

  ghost function Pick(m: map<Id, Account>): Id
    requires m != map[]
  {
    var k :| k in m; k
  }

  /** The sum of all balances. */
  ghost function Total(m: map<Id, Account>): real
    decreases |m|
  {
    if m == map[] then 0.0 else m[Pick(m)].balance + Total(m - {Pick(m)})
  }

  lemma {:induction false} TotalRemove(m: map<Id, Account>, k: Id)
    requires k in m
    ensures Total(m) == m[k].balance + Total(m - {k})
    decreases |m|
  {
    var x := Pick(m);
    if x != k {
      TotalRemove(m - {x}, k);
      TotalRemove(m - {k}, x);
      assert m - {x} - {k} == m - {k} - {x};
    }
  }

  /** Replacing one account changes the total by the change of its balance. */
  lemma TotalUpdate(m: map<Id, Account>, k: Id, v: Account)
    requires k in m
    ensures Total(m[k := v]) == Total(m) - m[k].balance + v.balance
  {
    TotalRemove(m, k);
    TotalRemove(m[k := v], k);
    assert m[k := v] - {k} == m - {k};
  }

  /** A store that differs from st only in one account's balance and the journal still satisfies the invariant. */
  lemma BalanceChangeKeepsValid(st: Store, st': Store, a: Id, b: real)
    requires Valid(st) && a in st.accounts
    requires st'.accounts == st.accounts[a := st.accounts[a].(balance := b)]
    requires st'.credits == st.credits && st'.payments == st.payments
    requires st'.nextAccountId == st.nextAccountId && st'.nextCreditId == st.nextCreditId && st'.nextPaymentId == st.nextPaymentId
    ensures Valid(st')
  {
    assert SameSkeleton(st, st');
    SkeletonKeepsKeys(st, st');
  }

  /* --------------------------------------------------- deposit, withdraw */

  /** The journal rows `Deposit` writes: one "ATM" row, for a DEPOSIT request only. */
  function DepositRows(req: TxRequest): seq<Transaction> {
    if req.kind == TxType.Deposit then [Transaction(req.accountId, req.amount, TxType.Deposit, "ATM")] else []
  }

  /** The journal rows `Withdraw` writes: one "ATM" row with a positive amount, for a WITHDRAW request only. */
  function WithdrawRows(req: TxRequest): seq<Transaction> {
    if req.kind == TxType.Withdraw then [Transaction(req.accountId, req.amount, TxType.Withdraw, "ATM")] else []
  }

  /** `Deposit`: on success, the account as saved. */
  method Deposit(st: Store, req: TxRequest) returns (r: Result<Account, BankError>, st': Store)
    ensures r.Err? ==> st' == st
    ensures !ValidTxRequest(req) ==> r == Err(InvalidRequest)
    ensures ValidTxRequest(req) && req.accountId !in st.accounts ==> r == Err(AccountNotFound)
    ensures r.Ok? <==> ValidTxRequest(req) && req.accountId in st.accounts
    ensures r.Ok? ==>
              && r.value == st.accounts[req.accountId].(balance := st.accounts[req.accountId].balance + req.amount)
              && st'.accounts == st.accounts[req.accountId := r.value]
              && st'.log == st.log + DepositRows(req)
              && st'.credits == st.credits && st'.payments == st.payments
              && st'.nextAccountId == st.nextAccountId && st'.nextCreditId == st.nextCreditId
              && st'.nextPaymentId == st.nextPaymentId
    ensures r.Ok? ==> Total(st'.accounts) == Total(st.accounts) + req.amount
    ensures r.Ok? && Valid(st) ==> Valid(st')
  {
    if !ValidTxRequest(req) {
      return Err(InvalidRequest), st;
    }
    if req.accountId !in st.accounts {
      return Err(AccountNotFound), st;
    }
    var account := st.accounts[req.accountId];
    account := account.(balance := account.balance + req.amount);
    st' := st.(accounts := st.accounts[req.accountId := account]);
    if req.kind == TxType.Deposit {
      st' := st'.(log := st'.log + [Transaction(req.accountId, req.amount, TxType.Deposit, "ATM")]);
    }
    r := Ok(account);
    TotalUpdate(st.accounts, req.accountId, account);
    if Valid(st) {
      BalanceChangeKeepsValid(st, st', req.accountId, account.balance);
    }
  }

  /** `Withdraw`: on success, the account as saved. */
  method Withdraw(st: Store, req: TxRequest) returns (r: Result<Account, BankError>, st': Store)
    ensures r.Err? ==> st' == st
    ensures !ValidTxRequest(req) ==> r == Err(InvalidRequest)
    ensures ValidTxRequest(req) && req.accountId !in st.accounts ==> r == Err(AccountNotFound)
    ensures (ValidTxRequest(req) && req.accountId in st.accounts && st.accounts[req.accountId].balance < req.amount)
            ==> r == Err(InsufficientFunds)
    ensures r.Ok? <==> ValidTxRequest(req) && req.accountId in st.accounts && st.accounts[req.accountId].balance >= req.amount
    ensures r.Ok? ==>
              && r.value == st.accounts[req.accountId].(balance := st.accounts[req.accountId].balance - req.amount)
              && st'.accounts == st.accounts[req.accountId := r.value]
              && st'.log == st.log + WithdrawRows(req)
              && st'.credits == st.credits && st'.payments == st.payments
              && st'.nextAccountId == st.nextAccountId && st'.nextCreditId == st.nextCreditId
              && st'.nextPaymentId == st.nextPaymentId
    ensures r.Ok? ==> Total(st'.accounts) == Total(st.accounts) - req.amount
    ensures r.Ok? ==> r.value.balance >= 0.0
    ensures r.Ok? && Valid(st) ==> Valid(st')
  {
    if !ValidTxRequest(req) {
      return Err(InvalidRequest), st;
    }
    if req.accountId !in st.accounts {
      return Err(AccountNotFound), st;
    }
    var account := st.accounts[req.accountId];
    if account.balance < req.amount {
      return Err(InsufficientFunds), st;
    }
    account := account.(balance := account.balance - req.amount);
    st' := st.(accounts := st.accounts[req.accountId := account]);
    if req.kind == TxType.Withdraw {
      st' := st'.(log := st'.log + [Transaction(req.accountId, req.amount, TxType.Withdraw, "ATM")]);
    }
    r := Ok(account);
    TotalUpdate(st.accounts, req.accountId, account);
    if Valid(st) {
      BalanceChangeKeepsValid(st, st', req.accountId, account.balance);
    }
  }

  /* ------------------------------------------------------------ transfer */

  /** `TransferRequest`: both IDs required, amount `gt=0`. */
  datatype TransferRequest = TransferRequest(sourceId: Id, destinationId: Id, amount: real)

  predicate ValidTransfer(req: TransferRequest) {
    req.sourceId != 0 && req.destinationId != 0 && req.amount > 0.0
  }

  /** The two TRANSFER rows, both with the positive amount, naming the other account's number. */
  function TransferRows(req: TransferRequest, sourceNumber: string, destinationNumber: string): seq<Transaction> {
    [Transaction(req.sourceId, req.amount, TxType.Transfer, "Transfer to account " + destinationNumber),
     Transaction(req.destinationId, req.amount, TxType.Transfer, "Transfer from account " + sourceNumber)]
  }

  /** Both halves of the transfer can be carried out. */
  predicate TransferPossible(st: Store, req: TransferRequest) {
    && ValidTransfer(req) && req.sourceId != req.destinationId
    && req.sourceId in st.accounts && req.destinationId in st.accounts
    && st.accounts[req.sourceId].balance >= req.amount
  }

  /** The accounts after a completed transfer. */
  function Moved(st: Store, req: TransferRequest): map<Id, Account>
    requires req.sourceId in st.accounts && req.destinationId in st.accounts
  {
    var src, dst := st.accounts[req.sourceId], st.accounts[req.destinationId];
    st.accounts[req.sourceId := src.(balance := src.balance - req.amount)]
               [req.destinationId := dst.(balance := dst.balance + req.amount)]
  }

  /**
   * `Transfer` as written: the withdrawal from the source commits on its own
   * before the deposit is attempted, so when the destination does not exist
   * the call fails with the source already debited and the money gone.
   */
  method TransferAsWritten(st: Store, req: TransferRequest) returns (r: Outcome<BankError>, st': Store)
    ensures !ValidTransfer(req) ==> r == Fail(InvalidRequest) && st' == st
    ensures ValidTransfer(req) && req.sourceId == req.destinationId ==> r == Fail(SameAccount) && st' == st
    ensures (ValidTransfer(req) && req.sourceId != req.destinationId && req.sourceId !in st.accounts)
            ==> r == Fail(AccountNotFound) && st' == st
    ensures (ValidTransfer(req) && req.sourceId != req.destinationId && req.sourceId in st.accounts
             && st.accounts[req.sourceId].balance < req.amount) ==> r == Fail(InsufficientFunds) && st' == st
    ensures (ValidTransfer(req) && req.sourceId != req.destinationId && req.sourceId in st.accounts
             && st.accounts[req.sourceId].balance >= req.amount && req.destinationId !in st.accounts)
            ==> && r == Fail(AccountNotFound)
                && st'.accounts == st.accounts[req.sourceId := st.accounts[req.sourceId].(balance := st.accounts[req.sourceId].balance - req.amount)]
                && st'.log == st.log
                && Total(st'.accounts) == Total(st.accounts) - req.amount
    ensures r.Pass? <==> TransferPossible(st, req)
    ensures r.Pass? ==>
              && st'.accounts == Moved(st, req)
              && st'.log == st.log + TransferRows(req, st.accounts[req.sourceId].number, st.accounts[req.destinationId].number)
              && Total(st'.accounts) == Total(st.accounts)
    ensures st'.credits == st.credits && st'.payments == st.payments
    ensures st'.nextAccountId == st.nextAccountId && st'.nextCreditId == st.nextCreditId && st'.nextPaymentId == st.nextPaymentId
    ensures Valid(st) ==> Valid(st')
  {
    if !ValidTransfer(req) {
      return Fail(InvalidRequest), st;
    }
    if req.sourceId == req.destinationId {
      return Fail(SameAccount), st;
    }
    var source, st1 := Withdraw(st, TxRequest(req.sourceId, req.amount, TxType.Transfer));
    if source.Err? {
      return Fail(source.error), st;
    }
    var destination, st2 := Deposit(st1, TxRequest(req.destinationId, req.amount, TxType.Transfer));
    if destination.Err? {
      return Fail(destination.error), st1;
    }
    st' := st2.(log := st2.log + TransferRows(req, source.value.number, destination.value.number));
    r := Pass;
    TransferLogKeepsValid(st2, st');
  }

  /** `Transfer` with both halves in one transaction: nothing is changed on any failure. */
  method Transfer(st: Store, req: TransferRequest) returns (r: Outcome<BankError>, st': Store)
    ensures r.Fail? ==> st' == st
    ensures !ValidTransfer(req) ==> r == Fail(InvalidRequest)
    ensures ValidTransfer(req) && req.sourceId == req.destinationId ==> r == Fail(SameAccount)
    ensures (ValidTransfer(req) && req.sourceId != req.destinationId && req.sourceId !in st.accounts)
            ==> r == Fail(AccountNotFound)
    ensures (ValidTransfer(req) && req.sourceId != req.destinationId && req.sourceId in st.accounts
             && st.accounts[req.sourceId].balance < req.amount) ==> r == Fail(InsufficientFunds)
    ensures (ValidTransfer(req) && req.sourceId != req.destinationId && req.sourceId in st.accounts
             && st.accounts[req.sourceId].balance >= req.amount && req.destinationId !in st.accounts)
            ==> r == Fail(AccountNotFound)
    ensures r.Pass? <==> TransferPossible(st, req)
    ensures r.Pass? ==>
              && st'.accounts == Moved(st, req)
              && st'.log == st.log + TransferRows(req, st.accounts[req.sourceId].number, st.accounts[req.destinationId].number)
              && st'.credits == st.credits && st'.payments == st.payments
              && st'.nextAccountId == st.nextAccountId && st'.nextCreditId == st.nextCreditId && st'.nextPaymentId == st.nextPaymentId
    ensures Total(st'.accounts) == Total(st.accounts)
    ensures Valid(st) ==> Valid(st')
  {
    if !ValidTransfer(req) {
      return Fail(InvalidRequest), st;
    }
    if req.sourceId == req.destinationId {
      return Fail(SameAccount), st;
    }
    var source, st1 := Withdraw(st, TxRequest(req.sourceId, req.amount, TxType.Transfer));
    if source.Err? {
      return Fail(source.error), st;
    }
    var destination, st2 := Deposit(st1, TxRequest(req.destinationId, req.amount, TxType.Transfer));
    if destination.Err? {
      return Fail(destination.error), st;
    }
    st' := st2.(log := st2.log + TransferRows(req, source.value.number, destination.value.number));
    r := Pass;
    TransferLogKeepsValid(st2, st');
  }

  lemma TransferLogKeepsValid(st: Store, st': Store)
    requires st' == st.(log := st'.log)
    ensures Valid(st) ==> Valid(st')
  {
  }

  /** A store in which the as-written transfer loses money: account 1 holds 100 and account 2 does not exist. */
  function LonelyAccountStore(): Store {
    Store(map[1 := Account("Go Bank", "40817810000000000001", "Go White", 100.0, 7)], map[], map[], [], 2, 1, 1)
  }

  /** Transferring 50 from account 1 to the missing account 2 as written: the call fails and account 1 is left with 50. */
  method TransferToMissingAccountLosesMoney() returns (r: Outcome<BankError>, st': Store)
    ensures Valid(LonelyAccountStore())
    ensures r == Fail(AccountNotFound)
    ensures 1 in st'.accounts && st'.accounts[1].balance == 50.0 && st'.log == []
    ensures Total(st'.accounts) == Total(LonelyAccountStore().accounts) - 50.0
  {
    var st := LonelyAccountStore();
    r, st' := TransferAsWritten(st, TransferRequest(1, 2, 50.0));
  }

  /** The number `generateAccountNumber` builds from its draws. */
  function AccountNumber(draws: seq<Digit>): (number: string)
    ensures |number| == |draws|
    ensures forall i :: 0 <= i < |draws| ==> IsDigitChar(number[i]) && CharValue(number[i]) == draws[i]
  {
    if |draws| == 0 then []
    else
      DigitCharValue(draws[|draws| - 1]);
      AccountNumber(draws[..|draws| - 1]) + [DigitChar(draws[|draws| - 1])]
  }

  /** `generateAccountNumber`: twenty draws of a decimal digit, written one after the other. */
  method GenerateAccountNumber(draws: seq<Digit>) returns (number: string)
    requires |draws| == 20
    ensures number == AccountNumber(draws)
    ensures |number| == 20 && forall i :: 0 <= i < 20 ==> IsDigitChar(number[i])
  {
    number := "";
    for i := 0 to 20
      invariant number == AccountNumber(draws[..i])
    {
      assert draws[..i + 1][..i] == draws[..i];
      number := number + [DigitChar(draws[i])];
    }
    assert draws[..20] == draws;
  }

  /** `CreateBankAccountDTO`. */
  datatype CreateAccountDto = CreateAccountDto(bankName: string, balance: real, title: string, userId: Id)

  /**
   * The validator tags: bank name of 2 to 100 characters, balance `gte=0`,
   * title empty or of 2 to 100 characters, user ID required. The validator
   * counts characters, not bytes.
   */
  predicate ValidAccountDto(dto: CreateAccountDto) {
    && 2 <= |dto.bankName| <= 100
    && dto.balance >= 0.0
    && (dto.title == "" || 2 <= |dto.title| <= 100)
    && dto.userId != 0
  }

  const DefaultTitle: string := "Go White"

  function TitleOrDefault(title: string): (t: string)
    ensures title == "" ==> t == DefaultTitle
    ensures title != "" ==> t == title
  {
    if title == "" then DefaultTitle else title
  }

  /** An account with this number exists already; the unique index on `number` then refuses the insert. */
  predicate NumberTaken(st: Store, number: string) {
    exists a :: a in st.accounts && st.accounts[a].number == number
  }

  function NewAccount(dto: CreateAccountDto, number: string): Account {
    Account(dto.bankName, number, TitleOrDefault(dto.title), dto.balance, dto.userId)
  }

  /**
   * The insert of the new account is refused: the unique index on `number`
   * finds the number taken, or the foreign key from `holder_id` to the users
   * table finds no such user.
   */
  predicate InsertRefused(st: Store, dto: CreateAccountDto, number: string, users: set<Id>) {
    NumberTaken(st, number) || dto.userId !in users
  }

  /**
   * `CreateBankAccount` with the twenty digit draws and the IDs present in the
   * users table as inputs. A refused insert stores nothing; once the insert
   * succeeds the holder exists, so reading it back succeeds too.
   */
  method CreateBankAccount(st: Store, dto: CreateAccountDto, draws: seq<Digit>, users: set<Id>)
      returns (r: Result<Id, BankError>, st': Store)
    requires |draws| == 20
    ensures r.Err? ==> st' == st
    ensures !ValidAccountDto(dto) ==> r == Err(InvalidRequest)
    ensures ValidAccountDto(dto) && InsertRefused(st, dto, AccountNumber(draws), users) ==> r == Err(AccountCreateFailed)
    ensures r.Ok? <==> ValidAccountDto(dto) && !NumberTaken(st, AccountNumber(draws)) && dto.userId in users
    ensures r.Ok? ==>
              && r.value == st.nextAccountId
              && st' == st.(accounts := st.accounts[st.nextAccountId := NewAccount(dto, AccountNumber(draws))],
                            nextAccountId := st.nextAccountId + 1)
              && st'.accounts[r.value].title != ""
    ensures Valid(st) ==> Valid(st')
  {
    if !ValidAccountDto(dto) {
      return Err(InvalidRequest), st;
    }
    var title := dto.title;
    if title == "" {
      title := DefaultTitle;
    }
    var number := GenerateAccountNumber(draws);
    var account := Account(dto.bankName, number, title, dto.balance, dto.userId);
    if (exists a :: a in st.accounts && st.accounts[a].number == number) || dto.userId !in users {
      return Err(AccountCreateFailed), st;
    }
    var id := st.nextAccountId;
    st' := st.(accounts := st.accounts[id := account], nextAccountId := id + 1);
    r := Ok(id);
    if Valid(st) {
      OpeningKeepsValid(st, st', account);
    }
  }

  lemma OpeningKeepsValid(st: Store, st': Store, account: Account)
    requires Valid(st) && !NumberTaken(st, account.number)
    requires st' == st.(accounts := st.accounts[st.nextAccountId := account], nextAccountId := st.nextAccountId + 1)
    ensures Valid(st')
  {
    var id := st.nextAccountId;
    assert id !in st.accounts;
    forall a, b | a in st'.accounts && b in st'.accounts && st'.accounts[a].number == st'.accounts[b].number
      ensures a == b
    {
      if a != id && b != id {
        assert st.accounts[a].number == st.accounts[b].number;
      }
    }
    assert forall c :: c in st'.credits ==> IsActiveCreditOf(st', c, st'.credits[c].accountId) == IsActiveCreditOf(st, c, st.credits[c].accountId);
  }
}

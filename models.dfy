/**
 * The persistent records of the bank (bank accounts, credits, scheduled
 * payments and the transaction journal) and the in-memory store that stands
 * for the database. A database transaction is modelled as a method that takes
 * a store and returns the store after commit; every error path returns the
 * store it was given, which is what a rollback leaves behind.
 */
module Models {
  import opened Wrappers
  import opened Calendar

  /** Primary keys are unsigned; 0 is the "missing" value a request validator rejects. */
  type Id = nat

  datatype CreditStatus = CreditActive | CreditPaid | CreditOverdue | CreditCanceled

  datatype PaymentStatus = Planned | Paid | Overdue | Canceled

  /** The three transaction types; the request validator admits no other. */
  datatype TxType = Deposit | Withdraw | Transfer

  /** The records below are stored under their primary key; the key is the record's ID. */
  datatype Account = Account(
    bank: string,
    number: string,
    title: string,
    balance: real,
    holderId: Id)

  datatype Credit = Credit(
    rate: real,
    accountId: Id,
    amount: real,
    status: CreditStatus,
    startDate: Time,
    endDate: Time)

  datatype Payment = Payment(
    creditId: Id,
    payDate: Time,
    amount: real,
    initAmount: real,
    isOverdue: bool,
    status: PaymentStatus,
    realPayDate: Option<Time>)

  /** One row of the transaction journal. */
  datatype Transaction = Transaction(
    accountId: Id,
    amount: real,
    kind: TxType,
    description: string)

  /** The database: one map per table keyed by primary key, the append-only journal, and the autoincrement counters. */
  datatype Store = Store(
    accounts: map<Id, Account>,
    credits: map<Id, Credit>,
    payments: map<Id, Payment>,
    log: seq<Transaction>,
    nextAccountId: Id,
    nextCreditId: Id,
    nextPaymentId: Id)

  /** The one-time overdue penalty: the amount grows by 10 percent. */
  function Penalised(amount: real): real {
    amount * 11.0 / 10.0
  }

  /** Every key was handed out by its table's autoincrement counter. */
  predicate FreshKeys(st: Store) {
    && st.nextAccountId >= 1 && st.nextCreditId >= 1 && st.nextPaymentId >= 1
    && (forall a :: a in st.accounts ==> 1 <= a < st.nextAccountId)
    && (forall c :: c in st.credits ==> 1 <= c < st.nextCreditId)
    && (forall p :: p in st.payments ==> 1 <= p < st.nextPaymentId)
  }

  predicate ForeignKeys(st: Store) {
    && (forall c :: c in st.credits ==> st.credits[c].accountId in st.accounts)
    && (forall p :: p in st.payments ==> st.payments[p].creditId in st.credits)
  }

  predicate UniqueNumbers(st: Store) {
    forall a, b :: a in st.accounts && b in st.accounts && st.accounts[a].number == st.accounts[b].number ==> a == b
  }

  /**
   * A PLANNED payment still carries its scheduled amount and no overdue flag;
   * an OVERDUE one carries the flag and exactly one penalty.
   */
  predicate PaymentShape(p: Payment) {
    && (p.status == Planned ==> !p.isOverdue && p.amount == p.initAmount)
    && (p.status == Overdue ==> p.isOverdue && p.amount == Penalised(p.initAmount))
  }

  predicate PaymentShapes(st: Store) {
    forall p :: p in st.payments ==> PaymentShape(st.payments[p])
  }

  predicate IsActiveCreditOf(st: Store, c: Id, account: Id) {
    c in st.credits && st.credits[c].accountId == account && st.credits[c].status == CreditActive
  }

  predicate HasActiveCredit(st: Store, account: Id) {
    exists c :: c in st.credits && IsActiveCreditOf(st, c, account)
  }

  /** At most one ACTIVE credit per account. */
  predicate OneActiveCredit(st: Store) {
    forall c, d ::
      (c in st.credits && d in st.credits && IsActiveCreditOf(st, c, st.credits[c].accountId)
       && IsActiveCreditOf(st, d, st.credits[c].accountId)) ==> c == d
  }

  /** The invariant every committed store satisfies. */
  predicate Valid(st: Store) {
    FreshKeys(st) && ForeignKeys(st) && UniqueNumbers(st) && PaymentShapes(st) && OneActiveCredit(st)
  }

  /**
   * st' has the same rows as st, the same counters, and the same links
   * between rows and the same account numbers: only balances, statuses and
   * amounts may differ.
   */
  predicate SameSkeleton(st: Store, st': Store) {
    && st'.accounts.Keys == st.accounts.Keys
    && st'.credits.Keys == st.credits.Keys
    && st'.payments.Keys == st.payments.Keys
    && st'.nextAccountId == st.nextAccountId
    && st'.nextCreditId == st.nextCreditId
    && st'.nextPaymentId == st.nextPaymentId
    && (forall a :: a in st'.accounts ==> st'.accounts[a].number == st.accounts[a].number)
    && (forall c :: c in st'.credits ==> st'.credits[c].accountId == st.credits[c].accountId)
    && (forall p :: p in st'.payments ==> st'.payments[p].creditId == st.payments[p].creditId)
  }

  /** Keys, links and account numbers carry over to a store with the same skeleton. */
  lemma SkeletonKeepsKeys(st: Store, st': Store)
    requires FreshKeys(st) && ForeignKeys(st) && UniqueNumbers(st) && SameSkeleton(st, st')
    ensures FreshKeys(st') && ForeignKeys(st') && UniqueNumbers(st')
  {
    forall a, b | a in st'.accounts && b in st'.accounts && st'.accounts[a].number == st'.accounts[b].number
      ensures a == b
    {
      assert st.accounts[a].number == st.accounts[b].number;
    }
  }

  lemma SkeletonKeepsForeign(st: Store, st': Store)
    requires ForeignKeys(st) && SameSkeleton(st, st')
    ensures ForeignKeys(st')
  {
  }

  function Empty(): Store {
    Store(map[], map[], map[], [], 1, 1, 1)
  }

  lemma EmptyValid()
    ensures Valid(Empty())
  {
  }

  /** The sum of the journal amounts booked on one account. */
  function Booked(log: seq<Transaction>, account: Id): real {
    if |log| == 0 then 0.0
    else Booked(log[..|log| - 1], account) + (if log[|log| - 1].accountId == account then log[|log| - 1].amount else 0.0)
  }

  lemma {:induction false} BookedAppend(a: seq<Transaction>, b: seq<Transaction>, account: Id)
    ensures Booked(a + b, account) == Booked(a, account) + Booked(b, account)
    decreases |b|
  {
    if |b| == 0 {
      assert a + b == a;
    } else {
      var b' := b[..|b| - 1];
      assert (a + b)[..|a + b| - 1] == a + b';
      BookedAppend(a, b', account);
    }
  }
}

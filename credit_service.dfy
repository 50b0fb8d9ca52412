/**
 * The credit engine: the annuity formula, the repayment schedule, issuing a
 * credit and repaying it by hand.
 */
module CreditService {
  import opened Wrappers
  import opened Calendar
  import opened Models

  /** `math.Pow` on a whole exponent. */
  function Pow(x: real, n: nat): real {
    if n == 0 then 1.0 else x * Pow(x, n - 1)
  }

  lemma {:induction false} PowAboveOne(x: real, n: nat)
    requires x > 1.0 && n > 0
    ensures Pow(x, n) > 1.0
  {
    if n > 1 {
      PowAboveOne(x, n - 1);
      assert x * Pow(x, n - 1) > 1.0 * Pow(x, n - 1);
    }
  }

  /** The yearly percentage rate turned into a monthly fraction. */
  function MonthlyRate(rate: real): real {
    rate / 12.0 / 100.0
  }

  /**
   * `calculateAnnuityPayment`: amount * r(1+r)^n / ((1+r)^n - 1) with r the
   * monthly rate. The formula divides zero by zero when the rate is 0.
   */
  function AnnuityPayment(amount: real, rate: real, months: nat): (payment: real)
    requires rate > 0.0 && months > 0
    ensures amount > 0.0 ==> payment > 0.0
  {
    var r := MonthlyRate(rate);
    PowAboveOne(1.0 + r, months);
    var q := Pow(1.0 + r, months);
    assert r * q > 0.0;
    amount * (r * q / (q - 1.0))
  }

  /** Over a single month the payment is the amount plus one month's interest. */
  lemma AnnuitySingleMonth(amount: real, rate: real)
    requires rate > 0.0
    ensures AnnuityPayment(amount, rate, 1) == amount * (1.0 + MonthlyRate(rate))
  {
    var r := MonthlyRate(rate);
    var q := Pow(1.0 + r, 1);
    assert Pow(1.0 + r, 0) == 1.0;
    assert q == 1.0 + r;
    assert r > 0.0;
    CancelFactor(r, q);
  }

  lemma CancelFactor(r: real, q: real)
    requires r != 0.0 && q - 1.0 == r
    ensures r * q / (q - 1.0) == q
  {
  }

  /**
   * The outstanding principal after k monthly payments of `payment` at
   * monthly rate r: each month adds its interest and subtracts the payment.
   */
  function Remaining(amount: real, r: real, payment: real, k: nat): real {
    if k == 0 then amount else Remaining(amount, r, payment, k - 1) * (1.0 + r) - payment
  }

  /** The algebra of one month of the closed form. */
  lemma ClosedFormStep(rem: real, amount: real, r: real, payment: real, q: real, rem': real, q': real)
    requires rem * r == amount * r * q - payment * (q - 1.0)
    requires rem' == rem * (1.0 + r) - payment && q' == (1.0 + r) * q
    ensures rem' * r == amount * r * q' - payment * (q' - 1.0)
  {
    calc {
      rem' * r;
      (rem * r) * (1.0 + r) - payment * r;
      (amount * r * q - payment * (q - 1.0)) * (1.0 + r) - payment * r;
      amount * r * ((1.0 + r) * q) - payment * ((1.0 + r) * q - 1.0);
    }
  }

  lemma {:induction false} RemainingClosedForm(amount: real, r: real, payment: real, k: nat)
    ensures Remaining(amount, r, payment, k) * r
         == amount * r * Pow(1.0 + r, k) - payment * (Pow(1.0 + r, k) - 1.0)
  {
    if k > 0 {
      var rem, q := Remaining(amount, r, payment, k - 1), Pow(1.0 + r, k - 1);
      RemainingClosedForm(amount, r, payment, k - 1);
      ClosedFormStep(rem, amount, r, payment, q, Remaining(amount, r, payment, k), Pow(1.0 + r, k));
    }
  }

  /** Paying the annuity every month brings the principal to exactly zero after the last month. */
  lemma AnnuityAmortises(amount: real, rate: real, months: nat)
    requires rate > 0.0 && months > 0
    ensures Remaining(amount, MonthlyRate(rate), AnnuityPayment(amount, rate, months), months) == 0.0
  {
    var r := MonthlyRate(rate);
    var q := Pow(1.0 + r, months);
    var a := AnnuityPayment(amount, rate, months);
    PowAboveOne(1.0 + r, months);
    RemainingClosedForm(amount, r, a, months);
    assert a * (q - 1.0) == amount * r * q;
    assert Remaining(amount, r, a, months) * r == 0.0;
  }

  /** The zero value of a payment, which `make` puts in every slot before the loop fills it. */
  const ZeroPayment := Payment(0, Time(0, 0, 0), 0.0, 0.0, false, Planned, None)

  /** The number of payments: whole 30-day periods between the credit's start and end dates, not its term in months. */
  function ScheduleLength(c: Credit): int {
    Periods(c.startDate, c.endDate)
  }

  /** A payment as the schedule creates it for credit `cid`: PLANNED, not overdue, unpaid, both amounts the annuity. */
  predicate Scheduled(p: Payment, cid: Id, payment: real) {
    && p.creditId == cid
    && p.status == Planned
    && !p.isOverdue
    && p.realPayDate == None
    && p.amount == payment
    && p.initAmount == payment
  }

  /**
   * `generatePaymentSchedule` for the credit stored under `cid`: payment i is
   * due i + 1 calendar months after the start; the running principal the loop
   * keeps reaches zero with the last payment.
   */
  method GeneratePaymentSchedule(cid: Id, c: Credit) returns (payments: seq<Payment>, ghost remaining: real)
    requires c.rate > 0.0
    requires ScheduleLength(c) >= 0
    ensures |payments| == ScheduleLength(c)
    ensures forall i :: 0 <= i < |payments| ==>
              && Scheduled(payments[i], cid, AnnuityPayment(c.amount, c.rate, |payments|))
              && payments[i].payDate == AddMonths(c.startDate, i + 1)
    ensures forall i, j :: 0 <= i < j < |payments| ==> Before(payments[i].payDate, payments[j].payDate)
    ensures |payments| > 0 ==> remaining == 0.0
  {
    var months := ScheduleLength(c);
    var a := new Payment[months](_ => ZeroPayment);
    var remainingAmount := c.amount;
    var monthlyRate := MonthlyRate(c.rate);
    var annuity := if months > 0 then AnnuityPayment(c.amount, c.rate, months) else 0.0;
    var i := 0;
    while i < months
      invariant 0 <= i <= months
      invariant forall k :: 0 <= k < i ==> Scheduled(a[k], cid, annuity) && a[k].payDate == AddMonths(c.startDate, k + 1)
      invariant remainingAmount == Remaining(c.amount, monthlyRate, annuity, i)
    {
      RemainingStep(c.amount, monthlyRate, annuity, i, remainingAmount);
      var interest := remainingAmount * monthlyRate;
      var principal := annuity - interest;
      remainingAmount := remainingAmount - principal;
      var payDate := AddMonths(c.startDate, i + 1);
      a[i] := Payment(cid, payDate, annuity, annuity, false, Planned, None);
      i := i + 1;
    }
    payments := a[..];
    remaining := remainingAmount;
    if months > 0 {
      AnnuityAmortises(c.amount, c.rate, months);
    }
    DueDatesIncrease(payments, c.startDate);
  }

  /** One month of the loop in `generatePaymentSchedule`: interest, principal, then the new remainder. */
  lemma RemainingStep(amount: real, r: real, payment: real, k: nat, rem: real)
    requires rem == Remaining(amount, r, payment, k)
    ensures rem - (payment - rem * r) == Remaining(amount, r, payment, k + 1)
  {
    assert Remaining(amount, r, payment, k + 1) == rem * (1.0 + r) - payment;
  }

  /** Monthly due dates strictly increase. */
  lemma DueDatesIncrease(payments: seq<Payment>, start: Time)
    requires forall i :: 0 <= i < |payments| ==> payments[i].payDate == AddMonths(start, i + 1)
    ensures forall i, j :: 0 <= i < j < |payments| ==> Before(payments[i].payDate, payments[j].payDate)
  {
    forall i, j | 0 <= i < j < |payments|
      ensures Before(payments[i].payDate, payments[j].payDate)
    {
      var a, b := payments[i].payDate, payments[j].payDate;
      AddMonthsStrictlyIncreasing(start, i + 1, j + 1);
      assert Before(a, b);
    }
  }

  /** A 1-month credit opened on 1 February 2023 spans 28 days, less than one 30-day period: no payments. */
  lemma FebruaryCreditHasNoPayments(s: int)
    ensures Periods(Civil(2023, 2, 1, s), AddMonths(Civil(2023, 2, 1, s), 1)) == 0
  {
    var t := Civil(2023, 2, 1, s);
    assert (24277 - 2) / 12 == 2022 && (24277 - 2) % 12 == 11 && DaysBeforeMarch(2022) == 738520;
    assert DayNumber(t) == 738857;
    assert (24278 - 2) / 12 == 2023 && (24278 - 2) % 12 == 0 && DaysBeforeMarch(2023) == 738885;
    assert DayNumber(AddMonths(t, 1)) == 738885;
    WholeDayPeriods(t, AddMonths(t, 1));
  }

  /** A 120-month credit opened on 1 January 2024 spans 3653 days: 121 payments, not 120. */
  lemma TenYearCreditHas121Payments(s: int)
    ensures Periods(Civil(2024, 1, 1, s), AddMonths(Civil(2024, 1, 1, s), 120)) == 121
  {
    var t := Civil(2024, 1, 1, s);
    assert (24288 - 2) / 12 == 2023 && (24288 - 2) % 12 == 10 && DaysBeforeMarch(2023) == 738885;
    assert DayNumber(t) == 739191;
    assert (24408 - 2) / 12 == 2033 && (24408 - 2) % 12 == 10 && DaysBeforeMarch(2033) == 742538;
    assert DayNumber(AddMonths(t, 120)) == 742844;
    WholeDayPeriods(t, AddMonths(t, 120));
  }

  /* ---------------------------------------------------------------- Create */

  /** `CreateCreditDTO`: the holder's user ID comes from the session. */
  datatype CreateCreditDto = CreateCreditDto(accountId: Id, amount: real, months: int, userId: Id)

  datatype CreditError =
    | InvalidRequest
    | RateUnavailable
    | AccountNotFound
    | AccessDenied
    | ActiveCreditExists
    | CreditNotFound
    | CreditNotActive
    | AccountMismatch
    | InsufficientFunds
    | NoPlannedPayment
    | AmountTooLow

  /** The validator tags: `required` rejects a zero value, `gt=0` a non-positive one. */
  predicate ValidCreateDto(dto: CreateCreditDto) {
    dto.accountId != 0 && dto.amount > 0.0 && dto.months > 0 && dto.userId != 0
  }

  /** The credit `Create` issues at instant `now` with the central bank's rate. */
  function IssuedCredit(dto: CreateCreditDto, rate: real, now: Time): Credit {
    Credit(rate, dto.accountId, dto.amount, CreditActive, now, AddMonths(now, dto.months))
  }

  /**
   * The store after a successful `Create`: the new credit under the next
   * credit ID, its schedule under consecutive fresh payment IDs, the amount
   * paid into the account, and one DEPOSIT journal row.
   */
  ghost predicate Issued(st: Store, st': Store, dto: CreateCreditDto, rate: real, now: Time)
    requires rate > 0.0 && dto.accountId in st.accounts
  {
    var cid, n0 := st.nextCreditId, st.nextPaymentId;
    var c := IssuedCredit(dto, rate, now);
    var n := ScheduleLength(c);
    var acct := st.accounts[dto.accountId];
    && st'.credits == st.credits[cid := c]
    && st'.nextCreditId == cid + 1
    && st'.accounts == st.accounts[dto.accountId := acct.(balance := acct.balance + dto.amount)]
    && st'.nextAccountId == st.nextAccountId
    && st'.log == st.log + [Transaction(dto.accountId, dto.amount, Deposit, "Credit issuance")]
    && n >= 0
    && st'.nextPaymentId == n0 + n
    && (forall k :: k in st'.payments <==> k in st.payments || n0 <= k < n0 + n)
    && (forall k :: k in st.payments ==> st'.payments[k] == st.payments[k])
    && (forall k :: n0 <= k < n0 + n ==>
          && Scheduled(st'.payments[k], cid, AnnuityPayment(dto.amount, rate, n))
          && st'.payments[k].payDate == AddMonths(now, k - n0 + 1))
  }

  /** `CreditService.Create` at instant `now`; `rate` is the central bank's answer, None when it failed. */
  method Create(st: Store, dto: CreateCreditDto, rate: Option<real>, now: Time) returns (r: Result<Id, CreditError>, st': Store)
    requires rate.Some? ==> rate.value > 0.0
    requires FreshKeys(st)
    ensures r.Err? ==> st' == st
    ensures !ValidCreateDto(dto) ==> r == Err(InvalidRequest)
    ensures ValidCreateDto(dto) && rate.None? ==> r == Err(RateUnavailable)
    ensures ValidCreateDto(dto) && rate.Some? && dto.accountId !in st.accounts ==> r == Err(AccountNotFound)
    ensures ValidCreateDto(dto) && rate.Some? && dto.accountId in st.accounts && st.accounts[dto.accountId].holderId != dto.userId
            ==> r == Err(AccessDenied)
    ensures (ValidCreateDto(dto) && rate.Some? && dto.accountId in st.accounts && st.accounts[dto.accountId].holderId == dto.userId
             && HasActiveCredit(st, dto.accountId)) ==> r == Err(ActiveCreditExists)
    ensures r.Ok? <==> ValidCreateDto(dto) && rate.Some? && dto.accountId in st.accounts
                       && st.accounts[dto.accountId].holderId == dto.userId && !HasActiveCredit(st, dto.accountId)
    ensures r.Ok? ==> r.value == st.nextCreditId && Issued(st, st', dto, rate.value, now)
    ensures r.Ok? && Valid(st) ==> Valid(st')
  {
    if !ValidCreateDto(dto) {
      return Err(InvalidRequest), st;
    }
    if rate.None? {
      return Err(RateUnavailable), st;
    }
    if dto.accountId !in st.accounts {
      return Err(AccountNotFound), st;
    }
    var account := st.accounts[dto.accountId];
    if account.holderId != dto.userId {
      return Err(AccessDenied), st;
    }
    if HasActiveCredit(st, dto.accountId) {
      return Err(ActiveCreditExists), st;
    }
    var credit := IssuedCredit(dto, rate.value, now);
    var cid := st.nextCreditId;
    PeriodsOfAddMonths(now, dto.months);
    ghost var remaining;
    var schedule;
    schedule, remaining := GeneratePaymentSchedule(cid, credit);
    var payments, nextId := PersistSchedule(st.payments, st.nextPaymentId, schedule);
    account := account.(balance := account.balance + dto.amount);
    st' := Store(
      st.accounts[dto.accountId := account],
      st.credits[cid := credit],
      payments,
      st.log + [Transaction(dto.accountId, dto.amount, Deposit, "Credit issuance")],
      st.nextAccountId,
      cid + 1,
      nextId);
    r := Ok(cid);
    IssuedByParts(st, st', dto, rate.value, now, schedule, payments, nextId);
    if Valid(st) {
      IssuePreservesValid(st, st', dto, rate.value, now);
    }
  }

  /** The pieces `Create` assembles make up the store `Issued` describes. */
  lemma IssuedByParts(st: Store, st': Store, dto: CreateCreditDto, rate: real, now: Time,
                      schedule: seq<Payment>, payments: map<Id, Payment>, nextId: Id)
    requires rate > 0.0 && dto.accountId in st.accounts
    requires
      var c := IssuedCredit(dto, rate, now);
      && |schedule| == ScheduleLength(c)
      && (forall i :: 0 <= i < |schedule| ==>
            && Scheduled(schedule[i], st.nextCreditId, AnnuityPayment(c.amount, c.rate, |schedule|))
            && schedule[i].payDate == AddMonths(c.startDate, i + 1))
    requires nextId == st.nextPaymentId + |schedule|
    requires forall k :: k in payments <==> k in st.payments || st.nextPaymentId <= k < nextId
    requires forall k :: k in st.payments ==> payments[k] == st.payments[k]
    requires forall k :: st.nextPaymentId <= k < nextId ==> payments[k] == schedule[k - st.nextPaymentId]
    requires
      var acct := st.accounts[dto.accountId];
      st' == Store(
        st.accounts[dto.accountId := acct.(balance := acct.balance + dto.amount)],
        st.credits[st.nextCreditId := IssuedCredit(dto, rate, now)],
        payments,
        st.log + [Transaction(dto.accountId, dto.amount, Deposit, "Credit issuance")],
        st.nextAccountId,
        st.nextCreditId + 1,
        nextId)
    ensures Issued(st, st', dto, rate, now)
  {
  }

  /** The loop that saves the schedule: each payment gets the next autoincrement ID. */
  method PersistSchedule(payments: map<Id, Payment>, n0: Id, schedule: seq<Payment>) returns (ps: map<Id, Payment>, next: Id)
    requires forall k :: k in payments ==> k < n0
    ensures next == n0 + |schedule|
    ensures forall k :: k in ps <==> k in payments || n0 <= k < next
    ensures forall k :: k in payments ==> ps[k] == payments[k]
    ensures forall k :: n0 <= k < next ==> ps[k] == schedule[k - n0]
  {
    ps, next := payments, n0;
    for i := 0 to |schedule|
      invariant next == n0 + i
      invariant forall k :: k in ps <==> k in payments || n0 <= k < next
      invariant forall k :: k in payments ==> ps[k] == payments[k]
      invariant forall k :: n0 <= k < next ==> ps[k] == schedule[k - n0]
    {
      ps := ps[next := schedule[i]];
      next := next + 1;
    }
  }

  /** Issuing a credit keeps the store invariant, given that the account had no ACTIVE credit. */
  lemma IssuePreservesValid(st: Store, st': Store, dto: CreateCreditDto, rate: real, now: Time)
    requires rate > 0.0 && dto.accountId in st.accounts
    requires Valid(st) && !HasActiveCredit(st, dto.accountId)
    requires Issued(st, st', dto, rate, now)
    ensures Valid(st')
  {
    IssueKeepsKeys(st, st', dto, rate, now);
    IssueKeepsShapes(st, st', dto, rate, now);
    IssueKeepsOneActive(st, st', dto, rate, now);
  }

  lemma IssueKeepsKeys(st: Store, st': Store, dto: CreateCreditDto, rate: real, now: Time)
    requires rate > 0.0 && dto.accountId in st.accounts
    requires Valid(st) && Issued(st, st', dto, rate, now)
    ensures FreshKeys(st') && ForeignKeys(st') && UniqueNumbers(st')
  {
    var cid, n0 := st.nextCreditId, st.nextPaymentId;
    forall p | p in st'.payments
      ensures st'.payments[p].creditId in st'.credits
    {
      if p !in st.payments {
        assert st'.payments[p].creditId == cid;
      }
    }
  }

  lemma IssueKeepsShapes(st: Store, st': Store, dto: CreateCreditDto, rate: real, now: Time)
    requires rate > 0.0 && dto.accountId in st.accounts
    requires Valid(st) && Issued(st, st', dto, rate, now)
    ensures PaymentShapes(st')
  {
    forall p | p in st'.payments
      ensures PaymentShape(st'.payments[p])
    {
      if p !in st.payments {
        assert Scheduled(st'.payments[p], st.nextCreditId, st'.payments[p].amount);
      }
    }
  }

  lemma IssueKeepsOneActive(st: Store, st': Store, dto: CreateCreditDto, rate: real, now: Time)
    requires rate > 0.0 && dto.accountId in st.accounts
    requires Valid(st) && !HasActiveCredit(st, dto.accountId)
    requires Issued(st, st', dto, rate, now)
    ensures OneActiveCredit(st')
  {
    var cid := st.nextCreditId;
    forall c, d | c in st'.credits && d in st'.credits && IsActiveCreditOf(st', c, st'.credits[c].accountId)
                  && IsActiveCreditOf(st', d, st'.credits[c].accountId)
      ensures c == d
    {
      if c != cid && d != cid {
        assert IsActiveCreditOf(st, c, st.credits[c].accountId);
      } else if c == cid && d != cid {
        assert IsActiveCreditOf(st, d, dto.accountId);
      }
    }
  }


  /* ------------------------------------------------------------- PayCredit */

  /** `PayCreditDTO`: the credit ID comes from the URL and carries no validator tag. */
  datatype PayCreditDto = PayCreditDto(amount: real, accountId: Id, creditId: Id)

  predicate ValidPayDto(dto: PayCreditDto) {
    dto.amount > 0.0 && dto.accountId != 0
  }

  predicate IsPlannedOf(payments: map<Id, Payment>, cid: Id, p: Id) {
    p in payments && payments[p].creditId == cid && payments[p].status == Planned
  }

  predicate HasPlanned(payments: map<Id, Payment>, cid: Id) {
    exists p :: p in payments && IsPlannedOf(payments, cid, p)
  }

  /** p is a PLANNED payment of credit cid with the earliest due date (`ORDER BY pay_date ASC`, first row). */
  predicate IsEarliestPlanned(payments: map<Id, Payment>, cid: Id, p: Id) {
    && IsPlannedOf(payments, cid, p)
    && forall q :: q in payments && IsPlannedOf(payments, cid, q) ==> NotAfter(payments[p].payDate, payments[q].payDate)
  }

  /** Every check of `PayCredit` up to and including the search for a PLANNED payment passes. */
  predicate PayChecksPass(st: Store, dto: PayCreditDto) {
    && ValidPayDto(dto)
    && dto.creditId in st.credits
    && st.credits[dto.creditId].status == CreditActive
    && st.credits[dto.creditId].accountId == dto.accountId
    && dto.accountId in st.accounts
    && st.accounts[dto.accountId].balance >= dto.amount
    && HasPlanned(st.payments, dto.creditId)
  }

  /** Every earliest PLANNED payment of the credit is due for more than the amount offered. */
  predicate DueExceeds(st: Store, dto: PayCreditDto) {
    forall p :: p in st.payments && IsEarliestPlanned(st.payments, dto.creditId, p) ==> dto.amount < st.payments[p].amount
  }

  /** Every earliest PLANNED payment of the credit is due for no more than the amount offered. */
  predicate DueCovered(st: Store, dto: PayCreditDto) {
    forall p :: p in st.payments && IsEarliestPlanned(st.payments, dto.creditId, p) ==> dto.amount >= st.payments[p].amount
  }

  /**
   * The store after a successful repayment of payment p: p is PAID at `now`
   * with the paid amount, the account is debited, one WITHDRAW row of minus
   * the amount is journaled, and the credit is PAID when no PLANNED payment
   * is left.
   */
  predicate Repaid(st: Store, st': Store, dto: PayCreditDto, now: Time, p: Id)
    requires p in st.payments && dto.accountId in st.accounts && dto.creditId in st.credits
  {
    var acct := st.accounts[dto.accountId];
    var payments' := st.payments[p := st.payments[p].(status := Paid, realPayDate := Some(now), amount := dto.amount)];
    var credit := st.credits[dto.creditId];
    && st'.payments == payments'
    && st'.accounts == st.accounts[dto.accountId := acct.(balance := acct.balance - dto.amount)]
    && st'.log == st.log + [Transaction(dto.accountId, -dto.amount, Withdraw, "Credit payment")]
    && st'.credits == (if HasPlanned(payments', dto.creditId) then st.credits
                       else st.credits[dto.creditId := credit.(status := CreditPaid)])
    && st'.nextAccountId == st.nextAccountId
    && st'.nextCreditId == st.nextCreditId
    && st'.nextPaymentId == st.nextPaymentId
  }

  /** `CreditService.PayCredit` at instant `now`; on success it returns the ID of the payment it settled. */
  method PayCredit(st: Store, dto: PayCreditDto, now: Time) returns (r: Result<Id, CreditError>, st': Store)
    ensures r.Err? ==> st' == st
    ensures !ValidPayDto(dto) ==> r == Err(InvalidRequest)
    ensures ValidPayDto(dto) && dto.creditId !in st.credits ==> r == Err(CreditNotFound)
    ensures (ValidPayDto(dto) && dto.creditId in st.credits && st.credits[dto.creditId].status != CreditActive)
            ==> r == Err(CreditNotActive)
    ensures (ValidPayDto(dto) && dto.creditId in st.credits && st.credits[dto.creditId].status == CreditActive
             && st.credits[dto.creditId].accountId != dto.accountId) ==> r == Err(AccountMismatch)
    ensures (ValidPayDto(dto) && dto.creditId in st.credits && st.credits[dto.creditId].status == CreditActive
             && st.credits[dto.creditId].accountId == dto.accountId && dto.accountId !in st.accounts) ==> r == Err(AccountNotFound)
    ensures (ValidPayDto(dto) && dto.creditId in st.credits && st.credits[dto.creditId].status == CreditActive
             && st.credits[dto.creditId].accountId == dto.accountId && dto.accountId in st.accounts
             && st.accounts[dto.accountId].balance < dto.amount) ==> r == Err(InsufficientFunds)
    ensures (ValidPayDto(dto) && dto.creditId in st.credits && st.credits[dto.creditId].status == CreditActive
             && st.credits[dto.creditId].accountId == dto.accountId && dto.accountId in st.accounts
             && st.accounts[dto.accountId].balance >= dto.amount && !HasPlanned(st.payments, dto.creditId))
            ==> r == Err(NoPlannedPayment)
    ensures r == Err(AmountTooLow) ==>
              PayChecksPass(st, dto)
              && exists p :: p in st.payments && IsEarliestPlanned(st.payments, dto.creditId, p) && dto.amount < st.payments[p].amount
    ensures PayChecksPass(st, dto) && DueExceeds(st, dto) ==> r == Err(AmountTooLow)
    ensures PayChecksPass(st, dto) && DueCovered(st, dto) ==> r.Ok?
    ensures r.Ok? ==>
              && PayChecksPass(st, dto)
              && IsEarliestPlanned(st.payments, dto.creditId, r.value)
              && dto.amount >= st.payments[r.value].amount
              && Repaid(st, st', dto, now, r.value)
    ensures r.Ok? ==> (st'.credits[dto.creditId].status == CreditPaid <==> !HasPlanned(st'.payments, dto.creditId))
    ensures r.Ok? && Valid(st) ==> Valid(st')
  {
    if !ValidPayDto(dto) {
      return Err(InvalidRequest), st;
    }
    if dto.creditId !in st.credits {
      return Err(CreditNotFound), st;
    }
    var credit := st.credits[dto.creditId];
    if credit.status != CreditActive {
      return Err(CreditNotActive), st;
    }
    if credit.accountId != dto.accountId {
      return Err(AccountMismatch), st;
    }
    if dto.accountId !in st.accounts {
      return Err(AccountNotFound), st;
    }
    var account := st.accounts[dto.accountId];
    if account.balance < dto.amount {
      return Err(InsufficientFunds), st;
    }
    if !HasPlanned(st.payments, dto.creditId) {
      return Err(NoPlannedPayment), st;
    }
    EarliestPlannedExists(st.payments, dto.creditId);
    var pid :| pid in st.payments && IsEarliestPlanned(st.payments, dto.creditId, pid);
    var next := st.payments[pid];
    if dto.amount < next.amount {
      return Err(AmountTooLow), st;
    }
    next := next.(status := Paid, realPayDate := Some(now), amount := dto.amount);
    var payments := st.payments[pid := next];
    account := account.(balance := account.balance - dto.amount);
    var log := st.log + [Transaction(dto.accountId, -dto.amount, Withdraw, "Credit payment")];
    var credits := st.credits;
    if !HasPlanned(payments, dto.creditId) {
      credits := credits[dto.creditId := credit.(status := CreditPaid)];
    }
    st' := Store(st.accounts[dto.accountId := account], credits, payments, log,
                 st.nextAccountId, st.nextCreditId, st.nextPaymentId);
    r := Ok(pid);
    assert Repaid(st, st', dto, now, pid);
    RepaidClosesLast(st, st', dto, now, pid);
    if Valid(st) {
      RepayPreservesValid(st, st', dto, now, pid);
    }
  }

  /** After a repayment of an ACTIVE credit, the credit is PAID exactly when no PLANNED payment of it is left. */
  lemma RepaidClosesLast(st: Store, st': Store, dto: PayCreditDto, now: Time, p: Id)
    requires p in st.payments && dto.accountId in st.accounts && dto.creditId in st.credits
    requires st.credits[dto.creditId].status == CreditActive && Repaid(st, st', dto, now, p)
    ensures dto.creditId in st'.credits
    ensures st'.credits[dto.creditId].status == CreditPaid <==> !HasPlanned(st'.payments, dto.creditId)
  {
  }

  lemma EarliestPlannedExists(payments: map<Id, Payment>, cid: Id)
    requires HasPlanned(payments, cid)
    ensures exists p :: p in payments && IsEarliestPlanned(payments, cid, p)
  {
    var w :| w in payments && IsPlannedOf(payments, cid, w);
    var planned := set p | p in payments && IsPlannedOf(payments, cid, p);
    assert w in planned;
    var m := EarliestOf(payments, planned);
  }

  /** A finite non-empty set of payments has one whose due date is not after any other's. */
  lemma {:induction false} EarliestOf(payments: map<Id, Payment>, ids: set<Id>) returns (m: Id)
    requires ids != {} && forall p :: p in ids ==> p in payments
    ensures m in ids && forall q :: q in ids ==> NotAfter(payments[m].payDate, payments[q].payDate)
    decreases |ids|
  {
    var x :| x in ids;
    if ids == {x} {
      m := x;
    } else {
      var m' := EarliestOf(payments, ids - {x});
      if NotAfter(payments[x].payDate, payments[m'].payDate) {
        m := x;
      } else {
        m := m';
      }
    }
  }

  lemma RepayPreservesValid(st: Store, st': Store, dto: PayCreditDto, now: Time, p: Id)
    requires p in st.payments && dto.accountId in st.accounts && dto.creditId in st.credits
    requires Valid(st) && Repaid(st, st', dto, now, p)
    ensures Valid(st')
  {
    RepayKeepsKeys(st, st', dto, now, p);
    RepayKeepsShapes(st, st', dto, now, p);
    RepayKeepsOneActive(st, st', dto, now, p);
  }

  lemma RepayKeepsKeys(st: Store, st': Store, dto: PayCreditDto, now: Time, p: Id)
    requires p in st.payments && dto.accountId in st.accounts && dto.creditId in st.credits
    requires Valid(st) && Repaid(st, st', dto, now, p)
    ensures FreshKeys(st') && ForeignKeys(st') && UniqueNumbers(st')
  {
    RepaidSkeleton(st, st', dto, now, p);
    SkeletonKeepsKeys(st, st');
  }

  lemma RepaidSkeleton(st: Store, st': Store, dto: PayCreditDto, now: Time, p: Id)
    requires p in st.payments && dto.accountId in st.accounts && dto.creditId in st.credits
    requires Repaid(st, st', dto, now, p)
    ensures SameSkeleton(st, st')
  {
  }

  lemma RepayKeepsShapes(st: Store, st': Store, dto: PayCreditDto, now: Time, p: Id)
    requires p in st.payments && dto.accountId in st.accounts && dto.creditId in st.credits
    requires Valid(st) && Repaid(st, st', dto, now, p)
    ensures PaymentShapes(st')
  {
  }

  lemma RepayKeepsOneActive(st: Store, st': Store, dto: PayCreditDto, now: Time, p: Id)
    requires p in st.payments && dto.accountId in st.accounts && dto.creditId in st.credits
    requires Valid(st) && Repaid(st, st', dto, now, p)
    ensures OneActiveCredit(st')
  {
    forall c, d | c in st'.credits && d in st'.credits && IsActiveCreditOf(st', c, st'.credits[c].accountId)
                  && IsActiveCreditOf(st', d, st'.credits[c].accountId)
      ensures c == d
    {
      assert IsActiveCreditOf(st, c, st.credits[c].accountId);
      assert IsActiveCreditOf(st, d, st.credits[c].accountId);
    }
  }
}

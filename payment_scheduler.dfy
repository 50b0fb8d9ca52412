/**
 * `PaymentSchedulerService`: the hourly batches that collect due and overdue
 * payments, and `processPayment`, which either debits the account or
 * escalates the payment to OVERDUE with a one-time 10 percent penalty.
 *
 * A batch runs in one database transaction: the rows are loaded first, then
 * processed in order, and the first failing write rolls the whole batch back.
 * Each loaded payment carries its own copy of its credit and account, so two
 * payments of one account in one batch each see the balance as it was
 * before the batch (`RunBatchAsWritten`, which the jobs run). `RunBatch` is
 * the batch with each row read afresh just before it is processed, so that
 * each payment sees the balance its predecessors left.
 */
module PaymentScheduler {
  import opened Wrappers
  import opened Calendar
  import opened Models

  /** The database writes of `processPayment`, any of which can fail. */
  datatype WriteStep = SavePayment | SaveCredit | SaveAccount | SaveTransaction

  datatype SchedError =
    | OverdueSaveFailed
    | CreditStatusSaveFailed
    | DebitFailed
    | PaymentSaveFailed
    | TransactionSaveFailed

  /** The failing writes: (p, w) is present when write w made for payment p fails. */
  type Faults = set<(Id, WriteStep)>

  /**
   * A payment as `processPayment` sees it: the row with its preloaded credit
   * and account. The preloaded credit and account agree with the stored rows
   * except possibly in the balance, which is the only field a batch writes
   * twice; so the item keeps the account's ID and the balance it saw.
   */
  datatype Item = Item(pid: Id, payment: Payment, accountId: Id, balance: real)

  /** The item's rows exist in st and are linked as the item says. */
  predicate Fits(st: Store, it: Item) {
    && it.pid in st.payments && st.payments[it.pid].creditId == it.payment.creditId
    && it.payment.creditId in st.credits && st.credits[it.payment.creditId].accountId == it.accountId
    && it.accountId in st.accounts
  }

  /** Loading payment pid with its credit and account (`Preload("Credit").Preload("Credit.Account")`). */
  function Load(st: Store, pid: Id): (it: Item)
    requires pid in st.payments && ForeignKeys(st)
    ensures Fits(st, it) && it.pid == pid && it.payment == st.payments[pid]
    ensures it.balance == st.accounts[it.accountId].balance
  {
    var p := st.payments[pid];
    var a := st.credits[p.creditId].accountId;
    Item(pid, p, a, st.accounts[a].balance)
  }

  /** The balance the item saw does not cover the payment. */
  predicate Short(it: Item) {
    it.balance < it.payment.amount
  }

  /**
   * One of the writes `processPayment` makes for the item fails; which writes
   * it makes depends on the item alone: none for an overdue payment it cannot
   * collect, payment then credit when it escalates, account then payment then
   * journal when it collects.
   */
  predicate Bites(it: Item, faults: Faults) {
    if Short(it) then
      !it.payment.isOverdue && ((it.pid, SavePayment) in faults || (it.pid, SaveCredit) in faults)
    else
      (it.pid, SaveAccount) in faults || (it.pid, SavePayment) in faults || (it.pid, SaveTransaction) in faults
  }

  /** The payment flagged overdue with the penalty applied. */
  function Escalated(p: Payment): Payment {
    p.(isOverdue := true, status := Overdue, amount := Penalised(p.amount))
  }

  /** The payment paid at `now`. */
  function Settled(p: Payment, now: Time): Payment {
    p.(status := Paid, realPayDate := Some(now))
  }

  /** The journal row of an automatic repayment. */
  function DebitRow(it: Item): Transaction {
    Transaction(it.accountId, -it.payment.amount, Withdraw, "Credit payment")
  }

  /** An outcome with the store inside the still open transaction. */
  datatype Committed = Committed(outcome: Outcome<SchedError>, store: Store)

  /** Rows other than the item's payment, its credit and its account are left alone. */
  predicate OnlyItemRows(st: Store, st': Store, it: Item) {
    && (forall p :: p in st.payments && p in st'.payments && p != it.pid ==> st'.payments[p] == st.payments[p])
    && (forall c :: c in st.credits && c in st'.credits && c != it.payment.creditId ==> st'.credits[c] == st.credits[c])
    && (forall a :: a in st.accounts && a in st'.accounts && a != it.accountId ==> st'.accounts[a] == st.accounts[a])
  }

  /**
   * What `processPayment` leaves in the open transaction for one item. A
   * failing write ends the step; the writes made before it are still in the
   * transaction, which the batch then rolls back.
   */
  function Step(st: Store, it: Item, now: Time, faults: Faults): (c: Committed)
    requires Fits(st, it)
    ensures SameSkeleton(st, c.store) && OnlyItemRows(st, c.store, it)
    ensures c.outcome.Fail? <==> Bites(it, faults)
    ensures Short(it) && it.payment.isOverdue ==> c == Committed(Pass, st)
    ensures Short(it) ==> c.store.accounts == st.accounts && c.store.log == st.log
    ensures !Short(it) ==> c.store.credits == st.credits
    ensures c.outcome.Pass? && Short(it) && !it.payment.isOverdue ==>
              && c.store.payments[it.pid] == Escalated(it.payment)
              && c.store.credits[it.payment.creditId] == st.credits[it.payment.creditId].(status := CreditOverdue)
    ensures c.outcome.Pass? && !Short(it) ==>
              && c.store.payments[it.pid] == Settled(it.payment, now)
              && c.store.accounts[it.accountId] == st.accounts[it.accountId].(balance := it.balance - it.payment.amount)
              && c.store.log == st.log + [DebitRow(it)]
  {
    var cid, aid := it.payment.creditId, it.accountId;
    if Short(it) then
      if it.payment.isOverdue then Committed(Pass, st)
      else if (it.pid, SavePayment) in faults then Committed(Fail(OverdueSaveFailed), st)
      else
        var st1 := st.(payments := st.payments[it.pid := Escalated(it.payment)]);
        if (it.pid, SaveCredit) in faults then Committed(Fail(CreditStatusSaveFailed), st1)
        else Committed(Pass, st1.(credits := st1.credits[cid := st1.credits[cid].(status := CreditOverdue)]))
    else if (it.pid, SaveAccount) in faults then Committed(Fail(DebitFailed), st)
    else
      var st1 := st.(accounts := st.accounts[aid := st.accounts[aid].(balance := it.balance - it.payment.amount)]);
      if (it.pid, SavePayment) in faults then Committed(Fail(PaymentSaveFailed), st1)
      else
        var st2 := st1.(payments := st1.payments[it.pid := Settled(it.payment, now)]);
        if (it.pid, SaveTransaction) in faults then Committed(Fail(TransactionSaveFailed), st2)
        else Committed(Pass, st2.(log := st2.log + [DebitRow(it)]))
  }

  /**
   * `processPayment`: the preloaded rows are changed in place and saved one
   * after the other; the first failing save ends the call.
   */
  method ProcessPayment(st: Store, it: Item, now: Time, faults: Faults) returns (r: Outcome<SchedError>, st': Store)
    requires Fits(st, it)
    ensures Committed(r, st') == Step(st, it, now, faults)
  {
    var payment := it.payment;
    var cid, aid := payment.creditId, it.accountId;
    st' := st;
    if it.balance < payment.amount {
      if payment.isOverdue {
        return Pass, st';
      }
      payment := payment.(isOverdue := true, status := Overdue);
      payment := payment.(amount := Penalised(payment.amount));
      if (it.pid, SavePayment) in faults {
        return Fail(OverdueSaveFailed), st';
      }
      st' := st'.(payments := st'.payments[it.pid := payment]);
      var credit := st'.credits[cid].(status := CreditOverdue);
      if (it.pid, SaveCredit) in faults {
        return Fail(CreditStatusSaveFailed), st';
      }
      st' := st'.(credits := st'.credits[cid := credit]);
      return Pass, st';
    }
    var account := st'.accounts[aid].(balance := it.balance - payment.amount);
    if (it.pid, SaveAccount) in faults {
      return Fail(DebitFailed), st';
    }
    st' := st'.(accounts := st'.accounts[aid := account]);
    payment := payment.(status := Paid, realPayDate := Some(now));
    if (it.pid, SavePayment) in faults {
      return Fail(PaymentSaveFailed), st';
    }
    st' := st'.(payments := st'.payments[it.pid := payment]);
    var row := Transaction(aid, -it.payment.amount, Withdraw, "Credit payment");
    if (it.pid, SaveTransaction) in faults {
      return Fail(TransactionSaveFailed), st';
    }
    st' := st'.(log := st'.log + [row]);
    r := Pass;
  }

  lemma SkeletonKeepsFits(st: Store, st': Store, items: seq<Item>)
    requires SameSkeleton(st, st') && forall i :: 0 <= i < |items| ==> Fits(st, items[i])
    ensures forall i :: 0 <= i < |items| ==> Fits(st', items[i])
  {
  }

  /* ------------------------------------------------------------- batches */

  /** Every item of the batch fits the store. */
  predicate AllFit(st: Store, items: seq<Item>) {
    forall i :: 0 <= i < |items| ==> Fits(st, items[i])
  }

  /** The rows of the batch as loaded before the first one is processed. */
  function Preload(st: Store, pids: seq<Id>): (items: seq<Item>)
    requires ForeignKeys(st) && forall i :: 0 <= i < |pids| ==> pids[i] in st.payments
    ensures |items| == |pids| && AllFit(st, items)
  {
    seq(|pids|, i requires 0 <= i < |pids| => Load(st, pids[i]))
  }

  /** The items processed in order on their preloaded copies, up to the first failure. */
  function RunItems(st: Store, items: seq<Item>, now: Time, faults: Faults): (c: Committed)
    requires AllFit(st, items)
    ensures SameSkeleton(st, c.store)
    ensures c.outcome.Fail? <==> exists i :: 0 <= i < |items| && Bites(items[i], faults)
    decreases |items|
  {
    if |items| == 0 then Committed(Pass, st)
    else
      var c := Step(st, items[0], now, faults);
      if c.outcome.Fail? then c
      else
        SkeletonKeepsFits(st, c.store, items[1..]);
        var rest := RunItems(c.store, items[1..], now, faults);
        SkeletonTrans(st, c.store, rest.store);
        BitesShift(items, faults);
        rest
  }

  /** Some item bites exactly when the first does or some item of the rest does. */
  lemma BitesShift(items: seq<Item>, faults: Faults)
    requires |items| > 0
    ensures (exists i :: 0 <= i < |items| && Bites(items[i], faults))
        <==> Bites(items[0], faults) || exists i :: 0 <= i < |items[1..]| && Bites(items[1..][i], faults)
  {
    assert forall i :: 1 <= i < |items| ==> items[i] == items[1..][i - 1];
  }

  /** Each payment loaded afresh just before it is processed, up to the first failure. */
  function RunFresh(st: Store, pids: seq<Id>, now: Time, faults: Faults): (c: Committed)
    requires ForeignKeys(st) && forall i :: 0 <= i < |pids| ==> pids[i] in st.payments
    ensures SameSkeleton(st, c.store) && ForeignKeys(c.store)
    ensures forall p :: p in st.payments && p !in pids ==> c.store.payments[p] == st.payments[p]
    decreases |pids|
  {
    if |pids| == 0 then Committed(Pass, st)
    else
      var c := Step(st, Load(st, pids[0]), now, faults);
      if c.outcome.Fail? then
        SkeletonKeepsForeign(st, c.store);
        c
      else
        SkeletonKeepsForeign(st, c.store);
        var rest := RunFresh(c.store, pids[1..], now, faults);
        SkeletonTrans(st, c.store, rest.store);
        rest
  }

  lemma SkeletonTrans(a: Store, b: Store, c: Store)
    requires SameSkeleton(a, b) && SameSkeleton(b, c)
    ensures SameSkeleton(a, c)
  {
  }

  /** The transaction of a batch: the effects of every item on success, none at all on failure. */
  function Commit(st: Store, c: Committed): Store {
    if c.outcome.Pass? then c.store else st
  }

  /**
   * The batch loop of `processPayments` and `processOverduePayments` as
   * written: every row is preloaded, then each item is processed on its own
   * copy; the first error rolls everything back.
   */
  method RunBatchAsWritten(st: Store, pids: seq<Id>, now: Time, faults: Faults) returns (r: Outcome<SchedError>, st': Store)
    requires ForeignKeys(st) && forall i :: 0 <= i < |pids| ==> pids[i] in st.payments
    ensures r == RunItems(st, Preload(st, pids), now, faults).outcome
    ensures st' == Commit(st, RunItems(st, Preload(st, pids), now, faults))
  {
    var items := Preload(st, pids);
    var cur := st;
    var i := 0;
    while i < |items|
      invariant 0 <= i <= |items|
      invariant AllFit(cur, items)
      invariant RunItems(cur, items[i..], now, faults) == RunItems(st, items, now, faults)
    {
      AllFitSuffix(cur, items, i);
      RunItemsFirst(cur, items[i..], now, faults);
      var res, next := ProcessPayment(cur, items[i], now, faults);
      if res.Fail? {
        return res, st;
      }
      assert items[i..][1..] == items[i + 1..];
      SkeletonKeepsFits(cur, next, items);
      cur := next;
      i := i + 1;
    }
    AllFitSuffix(cur, items, i);
    r, st' := Pass, cur;
  }

  /** One item of the run: the run stops at a failing step and goes on from the step's store otherwise. */
  lemma RunItemsFirst(st: Store, items: seq<Item>, now: Time, faults: Faults)
    requires AllFit(st, items) && |items| > 0
    ensures Step(st, items[0], now, faults).outcome.Fail? ==>
              RunItems(st, items, now, faults) == Step(st, items[0], now, faults)
    ensures Step(st, items[0], now, faults).outcome.Pass? ==>
              && AllFit(Step(st, items[0], now, faults).store, items[1..])
              && RunItems(st, items, now, faults) == RunItems(Step(st, items[0], now, faults).store, items[1..], now, faults)
  {
    SkeletonKeepsFits(st, Step(st, items[0], now, faults).store, items);
    AllFitSuffix(Step(st, items[0], now, faults).store, items, 1);
  }

  lemma AllFitSuffix(st: Store, items: seq<Item>, i: nat)
    requires AllFit(st, items) && i <= |items|
    ensures AllFit(st, items[i..])
  {
    assert forall j :: 0 <= j < |items| - i ==> items[i..][j] == items[i + j];
  }

  /** The batch loop with each row read afresh: the first error rolls everything back. */
  method RunBatch(st: Store, pids: seq<Id>, now: Time, faults: Faults) returns (r: Outcome<SchedError>, st': Store)
    requires ForeignKeys(st) && forall i :: 0 <= i < |pids| ==> pids[i] in st.payments
    ensures r == RunFresh(st, pids, now, faults).outcome
    ensures st' == Commit(st, RunFresh(st, pids, now, faults))
  {
    var cur := st;
    var i := 0;
    while i < |pids|
      invariant 0 <= i <= |pids|
      invariant ForeignKeys(cur) && cur.payments.Keys == st.payments.Keys
      invariant RunFresh(cur, pids[i..], now, faults) == RunFresh(st, pids, now, faults)
    {
      var res, next := ProcessPayment(cur, Load(cur, pids[i]), now, faults);
      if res.Fail? {
        return res, st;
      }
      assert pids[i..][1..] == pids[i + 1..];
      cur := next;
      i := i + 1;
    }
    r, st' := Pass, cur;
  }

  /* ------------------------------------------------------------ selection */

  /** The two hourly jobs. */
  datatype Job = DueJob | OverdueJob

  /**
   * The rows a job loads: `pay_date <= now AND status = PLANNED` for
   * `processPayments`, `is_overdue AND status = OVERDUE` for
   * `processOverduePayments`.
   */
  predicate Selects(job: Job, st: Store, now: Time, p: Id) {
    && p in st.payments
    && match job
       case DueJob => st.payments[p].status == Planned && NotAfter(st.payments[p].payDate, now)
       case OverdueJob => st.payments[p].isOverdue && st.payments[p].status == Overdue
  }

  predicate Distinct(s: seq<Id>) {
    forall i, j :: 0 <= i < j < |s| ==> s[i] != s[j]
  }

  /** The query of a job; the rows come back in no particular order. */
  method Select(job: Job, st: Store, now: Time) returns (pids: seq<Id>)
    ensures Distinct(pids)
    ensures forall p :: p in pids <==> Selects(job, st, now, p)
    ensures forall i :: 0 <= i < |pids| ==> pids[i] in st.payments
  {
    pids := [];
    var rest := st.payments.Keys;
    while rest != {}
      invariant rest <= st.payments.Keys
      invariant Distinct(pids)
      invariant forall p :: p in pids <==> Selects(job, st, now, p) && p !in rest
      decreases |rest|
    {
      var p :| p in rest;
      if Selects(job, st, now, p) {
        pids := pids + [p];
      }
      rest := rest - {p};
    }
  }

  /** One run of a job: select its rows, preload them, then process them as one all-or-nothing batch. */
  method RunJob(job: Job, st: Store, now: Time, faults: Faults) returns (batch: seq<Id>, r: Outcome<SchedError>, st': Store)
    requires ForeignKeys(st)
    ensures Distinct(batch) && forall p :: p in batch <==> Selects(job, st, now, p)
    ensures forall i :: 0 <= i < |batch| ==> batch[i] in st.payments
    ensures r == RunItems(st, Preload(st, batch), now, faults).outcome
    ensures st' == Commit(st, RunItems(st, Preload(st, batch), now, faults))
  {
    batch := Select(job, st, now);
    r, st' := RunBatchAsWritten(st, batch, now, faults);
  }

  /** `processPayments`: the PLANNED payments due by `now`. */
  method ProcessPayments(st: Store, now: Time, faults: Faults) returns (batch: seq<Id>, r: Outcome<SchedError>, st': Store)
    requires ForeignKeys(st)
    ensures Distinct(batch) && forall p :: p in batch <==> Selects(DueJob, st, now, p)
    ensures forall i :: 0 <= i < |batch| ==> batch[i] in st.payments
    ensures r == RunItems(st, Preload(st, batch), now, faults).outcome
    ensures st' == Commit(st, RunItems(st, Preload(st, batch), now, faults))
  {
    batch, r, st' := RunJob(DueJob, st, now, faults);
  }

  /** `processOverduePayments`: the payments flagged overdue. */
  method ProcessOverduePayments(st: Store, now: Time, faults: Faults) returns (batch: seq<Id>, r: Outcome<SchedError>, st': Store)
    requires ForeignKeys(st)
    ensures Distinct(batch) && forall p :: p in batch <==> Selects(OverdueJob, st, now, p)
    ensures forall i :: 0 <= i < |batch| ==> batch[i] in st.payments
    ensures r == RunItems(st, Preload(st, batch), now, faults).outcome
    ensures st' == Commit(st, RunItems(st, Preload(st, batch), now, faults))
  {
    batch, r, st' := RunJob(OverdueJob, st, now, faults);
  }

  /* ----------------------------------------------------------- properties */

  /**
   * Once a payment is escalated, a later tick either leaves it as it is or
   * collects it at the penalised amount: the penalty never compounds.
   */
  lemma PenaltyAppliedOnce(st: Store, pid: Id, now: Time, later: Time, faults: Faults, faults': Faults)
    requires ForeignKeys(st) && pid in st.payments
    requires Short(Load(st, pid)) && !st.payments[pid].isOverdue && !Bites(Load(st, pid), faults)
    ensures var st1 := Step(st, Load(st, pid), now, faults).store;
            && ForeignKeys(st1) && pid in st1.payments
            && st1.payments[pid] == Escalated(st.payments[pid])
            && Step(st1, Load(st1, pid), later, faults').store.payments[pid].amount == Penalised(st.payments[pid].amount)
  {
    var st1 := Step(st, Load(st, pid), now, faults).store;
    SkeletonKeepsForeign(st, st1);
  }

  lemma StepKeepsShapes(st: Store, it: Item, now: Time, faults: Faults)
    requires PaymentShapes(st) && Fits(st, it) && it.payment == st.payments[it.pid]
    requires it.payment.status == Planned || it.payment.status == Overdue
    ensures PaymentShapes(Step(st, it, now, faults).store)
  {
    var st' := Step(st, it, now, faults).store;
    forall p | p in st'.payments
      ensures PaymentShape(st'.payments[p])
    {
      if p != it.pid {
        assert st'.payments[p] == st.payments[p];
      }
    }
  }

  lemma StepKeepsOneActive(st: Store, it: Item, now: Time, faults: Faults)
    requires OneActiveCredit(st) && Fits(st, it)
    ensures OneActiveCredit(Step(st, it, now, faults).store)
  {
    var st' := Step(st, it, now, faults).store;
    forall x, y | x in st'.credits && y in st'.credits && IsActiveCreditOf(st', x, st'.credits[x].accountId)
                  && IsActiveCreditOf(st', y, st'.credits[x].accountId)
      ensures x == y
    {
      assert IsActiveCreditOf(st, x, st.credits[x].accountId);
      assert IsActiveCreditOf(st, y, st.credits[x].accountId);
    }
  }

  /** Every store inside a step, committed or not, satisfies the store invariant. */
  lemma StepKeepsValid(st: Store, it: Item, now: Time, faults: Faults)
    requires Valid(st) && Fits(st, it) && it.payment == st.payments[it.pid]
    requires it.payment.status == Planned || it.payment.status == Overdue
    ensures Valid(Step(st, it, now, faults).store)
  {
    SkeletonKeepsKeys(st, Step(st, it, now, faults).store);
    StepKeepsShapes(st, it, now, faults);
    StepKeepsOneActive(st, it, now, faults);
  }

  /** Every payment of the batch is one a job may select: PLANNED or OVERDUE. */
  predicate Pending(st: Store, pids: seq<Id>) {
    forall i :: 0 <= i < |pids| ==> pids[i] in st.payments && st.payments[pids[i]].status in {Planned, Overdue}
  }

  /** No payment occurs twice among the items. */
  predicate DistinctItems(items: seq<Item>) {
    forall i, j :: 0 <= i < j < |items| ==> items[i].pid != items[j].pid
  }

  /** Each item still carries its payment row as stored; only the balance it saw may be stale. */
  predicate ItemsCurrent(st: Store, items: seq<Item>) {
    forall i :: 0 <= i < |items| ==> items[i].pid in st.payments && st.payments[items[i].pid] == items[i].payment
  }

  predicate ItemsPending(items: seq<Item>) {
    forall i :: 0 <= i < |items| ==> items[i].payment.status in {Planned, Overdue}
  }

  predicate ItemsPlanned(items: seq<Item>) {
    forall i :: 0 <= i < |items| ==> items[i].payment.status == Planned && !items[i].payment.isOverdue
  }

  /** Preloading distinct pending rows gives distinct pending items that match the store. */
  lemma PreloadCurrent(st: Store, pids: seq<Id>)
    requires ForeignKeys(st) && Distinct(pids) && Pending(st, pids)
    ensures forall i :: 0 <= i < |pids| ==> Preload(st, pids)[i].pid == pids[i]
    ensures ItemsCurrent(st, Preload(st, pids)) && DistinctItems(Preload(st, pids)) && ItemsPending(Preload(st, pids))
  {
  }

  /** A step that leaves every other payment as it was keeps the rest of a batch of distinct items current. */
  lemma ItemsTail(st: Store, st': Store, items: seq<Item>)
    requires |items| > 0 && DistinctItems(items) && ItemsCurrent(st, items)
    requires st'.payments.Keys == st.payments.Keys
    requires forall p :: p in st.payments && p in st'.payments && p != items[0].pid ==> st'.payments[p] == st.payments[p]
    ensures DistinctItems(items[1..]) && ItemsCurrent(st', items[1..])
    ensures forall i :: 0 <= i < |items[1..]| ==> items[1..][i].pid != items[0].pid
    ensures ItemsPending(items) ==> ItemsPending(items[1..])
    ensures ItemsPlanned(items) ==> ItemsPlanned(items[1..])
  {
    forall i | 0 <= i < |items| - 1
      ensures items[1..][i].pid in st'.payments && st'.payments[items[1..][i].pid] == items[1..][i].payment
    {
      assert items[1..][i] == items[i + 1];
    }
  }

  /** A batch of distinct pending payments keeps the store invariant, whether it commits or rolls back. */
  lemma BatchKeepsValid(st: Store, pids: seq<Id>, now: Time, faults: Faults)
    requires Valid(st) && Distinct(pids) && Pending(st, pids)
    ensures Valid(Commit(st, RunItems(st, Preload(st, pids), now, faults)))
  {
    PreloadCurrent(st, pids);
    RunKeepsValid(st, Preload(st, pids), now, faults);
  }

  /** Every store a batch passes through satisfies the store invariant, however stale the balances its items saw. */
  lemma {:induction false} RunKeepsValid(st: Store, items: seq<Item>, now: Time, faults: Faults)
    requires Valid(st) && AllFit(st, items) && DistinctItems(items) && ItemsCurrent(st, items) && ItemsPending(items)
    ensures Valid(RunItems(st, items, now, faults).store)
    decreases |items|
  {
    if |items| > 0 {
      var c := Step(st, items[0], now, faults);
      StepKeepsValid(st, items[0], now, faults);
      RunItemsFirst(st, items, now, faults);
      if c.outcome.Pass? {
        ItemsTail(st, c.store, items);
        RunKeepsValid(c.store, items[1..], now, faults);
      }
    }
  }

  /** Every account's balance moved by exactly the sum the journal booked on it. */
  predicate BalancesTrackJournal(st: Store, st': Store) {
    forall a :: a in st.accounts && a in st'.accounts ==>
      st'.accounts[a].balance - st.accounts[a].balance == Booked(st'.log, a) - Booked(st.log, a)
  }

  lemma StepTracksJournal(st: Store, it: Item, now: Time, faults: Faults)
    requires Fits(st, it) && it.balance == st.accounts[it.accountId].balance
    ensures Step(st, it, now, faults).outcome.Pass? ==> BalancesTrackJournal(st, Step(st, it, now, faults).store)
  {
    var c := Step(st, it, now, faults);
    if c.outcome.Pass? && !Short(it) {
      assert [DebitRow(it)][..0] == [];
      forall a | a in st.accounts && a in c.store.accounts
        ensures c.store.accounts[a].balance - st.accounts[a].balance == Booked(c.store.log, a) - Booked(st.log, a)
      {
        BookedAppend(st.log, [DebitRow(it)], a);
      }
    }
  }

  lemma TracksTrans(a: Store, b: Store, c: Store)
    requires BalancesTrackJournal(a, b) && BalancesTrackJournal(b, c)
    requires b.accounts.Keys == a.accounts.Keys
    ensures BalancesTrackJournal(a, c)
  {
  }

  /** With every row read afresh, a committed batch debits each account by exactly what it journals. */
  lemma {:induction false} RunTracksJournal(st: Store, pids: seq<Id>, now: Time, faults: Faults)
    requires ForeignKeys(st) && forall i :: 0 <= i < |pids| ==> pids[i] in st.payments
    ensures RunFresh(st, pids, now, faults).outcome.Pass? ==> BalancesTrackJournal(st, RunFresh(st, pids, now, faults).store)
    decreases |pids|
  {
    if |pids| > 0 {
      var it := Load(st, pids[0]);
      var c := Step(st, it, now, faults);
      StepTracksJournal(st, it, now, faults);
      if c.outcome.Pass? {
        SkeletonKeepsForeign(st, c.store);
        RunTracksJournal(c.store, pids[1..], now, faults);
        var out := RunFresh(c.store, pids[1..], now, faults);
        if out.outcome.Pass? {
          TracksTrans(st, c.store, out.store);
        }
      }
    }
  }

  /** The committed effect of a batch keeps balances and journal in step. */
  lemma BatchTracksJournal(st: Store, pids: seq<Id>, now: Time, faults: Faults)
    requires ForeignKeys(st) && forall i :: 0 <= i < |pids| ==> pids[i] in st.payments
    ensures BalancesTrackJournal(st, Commit(st, RunFresh(st, pids, now, faults)))
  {
    RunTracksJournal(st, pids, now, faults);
  }

  /** A credit's status is kept or moved to OVERDUE; the scheduler never closes a credit or reactivates one. */
  predicate CreditsOnlyEscalate(st: Store, st': Store) {
    forall c :: c in st.credits && c in st'.credits ==>
      st'.credits[c].status == st.credits[c].status || st'.credits[c].status == CreditOverdue
  }

  lemma {:induction false} RunOnlyEscalates(st: Store, items: seq<Item>, now: Time, faults: Faults)
    requires AllFit(st, items)
    ensures CreditsOnlyEscalate(st, RunItems(st, items, now, faults).store)
    decreases |items|
  {
    if |items| > 0 {
      var c := Step(st, items[0], now, faults);
      RunItemsFirst(st, items, now, faults);
      if c.outcome.Pass? {
        RunOnlyEscalates(c.store, items[1..], now, faults);
      }
    }
  }

  /** Every payment of the batch is PLANNED and not flagged overdue. */
  predicate AllPlanned(st: Store, pids: seq<Id>) {
    forall i :: 0 <= i < |pids| ==> pids[i] in st.payments && st.payments[pids[i]].status == Planned && !st.payments[pids[i]].isOverdue
  }

  /** The payment of every item is PAID or OVERDUE. */
  predicate AllSettled(st: Store, items: seq<Item>) {
    forall i :: 0 <= i < |items| ==> items[i].pid in st.payments && st.payments[items[i].pid].status in {Paid, Overdue}
  }

  /** A batch leaves every payment that none of its items names as it was. */
  lemma {:induction false} RunItemsFrame(st: Store, items: seq<Item>, now: Time, faults: Faults, p: Id)
    requires AllFit(st, items) && p in st.payments && forall i :: 0 <= i < |items| ==> items[i].pid != p
    ensures p in RunItems(st, items, now, faults).store.payments
    ensures RunItems(st, items, now, faults).store.payments[p] == st.payments[p]
    decreases |items|
  {
    if |items| > 0 {
      var c := Step(st, items[0], now, faults);
      RunItemsFirst(st, items, now, faults);
      if c.outcome.Pass? {
        assert forall i :: 0 <= i < |items| - 1 ==> items[1..][i] == items[i + 1];
        RunItemsFrame(c.store, items[1..], now, faults, p);
      }
    }
  }

  lemma SettledCons(st: Store, items: seq<Item>)
    requires |items| > 0 && items[0].pid in st.payments && st.payments[items[0].pid].status in {Paid, Overdue}
    requires AllSettled(st, items[1..])
    ensures AllSettled(st, items)
  {
    forall i | 1 <= i < |items|
      ensures items[i].pid in st.payments && st.payments[items[i].pid].status in {Paid, Overdue}
    {
      assert items[i] == items[1..][i - 1];
    }
  }

  /** A committed batch of distinct PLANNED payments leaves each of them PAID or OVERDUE. */
  lemma {:induction false} RunSettlesBatch(st: Store, items: seq<Item>, now: Time, faults: Faults)
    requires AllFit(st, items) && DistinctItems(items) && ItemsCurrent(st, items) && ItemsPlanned(items)
    ensures RunItems(st, items, now, faults).outcome.Pass? ==> AllSettled(RunItems(st, items, now, faults).store, items)
    decreases |items|
  {
    if |items| > 0 {
      var c := Step(st, items[0], now, faults);
      RunItemsFirst(st, items, now, faults);
      if c.outcome.Pass? {
        ItemsTail(st, c.store, items);
        RunSettlesBatch(c.store, items[1..], now, faults);
        var out := RunItems(c.store, items[1..], now, faults);
        RunItemsFrame(c.store, items[1..], now, faults, items[0].pid);
        if out.outcome.Pass? {
          SettledCons(out.store, items);
        }
      }
    }
  }

  /** What `processPayments` selects is PLANNED and, in a valid store, not flagged overdue. */
  lemma DueBatchPlanned(st: Store, now: Time, batch: seq<Id>)
    requires Valid(st) && forall p :: p in batch <==> Selects(DueJob, st, now, p)
    ensures AllPlanned(st, batch)
  {
    forall i | 0 <= i < |batch|
      ensures batch[i] in st.payments && st.payments[batch[i]].status == Planned && !st.payments[batch[i]].isOverdue
    {
      assert batch[i] in batch;
    }
  }

  /** After a committed `processPayments` no PLANNED payment due by `now` is left. */
  lemma DueJobClearsDue(st: Store, now: Time, faults: Faults, batch: seq<Id>)
    requires Valid(st) && Distinct(batch) && forall p :: p in batch <==> Selects(DueJob, st, now, p)
    requires forall i :: 0 <= i < |batch| ==> batch[i] in st.payments
    requires RunItems(st, Preload(st, batch), now, faults).outcome.Pass?
    ensures forall p :: !Selects(DueJob, RunItems(st, Preload(st, batch), now, faults).store, now, p)
  {
    DueBatchPlanned(st, now, batch);
    PlannedBatchClearsDue(st, now, faults, batch);
  }

  lemma PlannedBatchClearsDue(st: Store, now: Time, faults: Faults, batch: seq<Id>)
    requires ForeignKeys(st) && Distinct(batch) && AllPlanned(st, batch)
    requires forall p :: p in batch <==> Selects(DueJob, st, now, p)
    ensures RunItems(st, Preload(st, batch), now, faults).outcome.Pass? ==>
      forall p :: !Selects(DueJob, RunItems(st, Preload(st, batch), now, faults).store, now, p)
  {
    PreloadCurrent(st, batch);
    PlannedItemsClearDue(st, Preload(st, batch), now, faults, batch);
  }

  lemma PlannedItemsClearDue(st: Store, items: seq<Item>, now: Time, faults: Faults, batch: seq<Id>)
    requires AllFit(st, items) && DistinctItems(items) && ItemsCurrent(st, items) && ItemsPlanned(items)
    requires |items| == |batch| && forall i :: 0 <= i < |batch| ==> items[i].pid == batch[i]
    requires forall p :: p in batch <==> Selects(DueJob, st, now, p)
    ensures RunItems(st, items, now, faults).outcome.Pass? ==> forall p :: !Selects(DueJob, RunItems(st, items, now, faults).store, now, p)
  {
    RunSettlesBatch(st, items, now, faults);
    var out := RunItems(st, items, now, faults).store;
    forall p | p in st.payments && p !in batch
      ensures p in out.payments && out.payments[p] == st.payments[p]
    {
      RunItemsFrame(st, items, now, faults, p);
    }
    if RunItems(st, items, now, faults).outcome.Pass? {
      SettledLeavesNoneDue(st, out, now, batch, items);
    }
  }

  /** Settling the whole selection and leaving everything else alone leaves nothing for `processPayments`. */
  lemma SettledLeavesNoneDue(st: Store, out: Store, now: Time, batch: seq<Id>, items: seq<Item>)
    requires out.payments.Keys == st.payments.Keys
    requires |items| == |batch| && forall i :: 0 <= i < |batch| ==> items[i].pid == batch[i]
    requires AllSettled(out, items)
    requires forall p :: p in st.payments && p !in batch ==> !Selects(DueJob, st, now, p)
    requires forall p :: p in st.payments && p !in batch ==> p in out.payments && out.payments[p] == st.payments[p]
    ensures forall p :: !Selects(DueJob, out, now, p)
  {
    forall p | p in out.payments
      ensures !Selects(DueJob, out, now, p)
    {
      if p in batch {
        var i :| 0 <= i < |batch| && batch[i] == p;
        assert items[i].pid == p;
      }
    }
  }

  /* ------------------------------------------------ the lost update, shown */

  /** One account with 150, and two PLANNED payments of 100 of one credit, both due. */
  function TwoDueStore(): Store {
    var due := Civil(2024, 1, 15, 0);
    var p := Payment(1, due, 100.0, 100.0, false, Planned, None);
    Store(map[1 := Account("Go Bank", "40817810000000000001", "Go White", 150.0, 7)],
          map[1 := Credit(10.0, 1, 200.0, CreditActive, due, due)],
          map[1 := p, 2 := p], [], 2, 2, 3)
  }

  /**
   * As written, both payments see the balance of 150, so both are collected:
   * the journal books 200 against the account while its balance drops by 100.
   */
  lemma SnapshotBatchLosesDebit()
    ensures var st := TwoDueStore();
            var c := RunItems(st, Preload(st, [1, 2]), Civil(2024, 2, 1, 0), {});
            && c.outcome.Pass?
            && c.store.payments[1].status == Paid && c.store.payments[2].status == Paid
            && c.store.accounts[1].balance == 50.0
            && Booked(c.store.log, 1) == -200.0
            && !BalancesTrackJournal(st, c.store)
  {
    var st := TwoDueStore();
    var c := SnapshotRun();
    BookedTwoRows(c.store.log, 1);
    assert 1 in st.accounts && 1 in c.store.accounts;
    assert c.store.accounts[1].balance - st.accounts[1].balance != Booked(c.store.log, 1) - Booked(st.log, 1);
  }

  /** Two items that can both be collected are both collected, each on the balance it saw. */
  lemma TwoCollected(st: Store, items: seq<Item>, now: Time, faults: Faults)
    requires AllFit(st, items) && |items| == 2 && items[0].pid != items[1].pid
    requires !Short(items[0]) && !Short(items[1]) && !Bites(items[0], faults) && !Bites(items[1], faults)
    ensures var c := RunItems(st, items, now, faults);
            && c.outcome.Pass?
            && c.store.payments[items[0].pid] == Settled(items[0].payment, now)
            && c.store.payments[items[1].pid] == Settled(items[1].payment, now)
            && c.store.accounts[items[1].accountId].balance == items[1].balance - items[1].payment.amount
            && c.store.log == st.log + [DebitRow(items[0]), DebitRow(items[1])]
  {
    var c1 := Step(st, items[0], now, faults);
    RunItemsFirst(st, items, now, faults);
    var rest := items[1..];
    assert rest == [items[1]] && rest[1..] == [];
    SkeletonKeepsFits(st, c1.store, rest);
    var c2 := Step(c1.store, rest[0], now, faults);
    RunItemsFirst(c1.store, rest, now, faults);
    assert RunItems(c2.store, rest[1..], now, faults) == Committed(Pass, c2.store);
  }

  lemma SnapshotRun() returns (c: Committed)
    ensures c == RunItems(TwoDueStore(), Preload(TwoDueStore(), [1, 2]), Civil(2024, 2, 1, 0), {})
    ensures c.outcome.Pass? && c.store.payments[1].status == Paid && c.store.payments[2].status == Paid
    ensures c.store.accounts[1].balance == 50.0
    ensures |c.store.log| == 2 && c.store.log[0].accountId == 1 && c.store.log[0].amount == -100.0
    ensures c.store.log[1].accountId == 1 && c.store.log[1].amount == -100.0
  {
    var st := TwoDueStore();
    var now := Civil(2024, 2, 1, 0);
    var items := Preload(st, [1, 2]);
    assert items == [Item(1, st.payments[1], 1, 150.0), Item(2, st.payments[2], 1, 150.0)];
    TwoCollected(st, items, now, {});
    c := RunItems(st, items, now, {});
  }

  /** The journal total of two rows. */
  lemma BookedTwoRows(log: seq<Transaction>, a: Id)
    requires |log| == 2
    ensures Booked(log, a) == (if log[0].accountId == a then log[0].amount else 0.0) + (if log[1].accountId == a then log[1].amount else 0.0)
  {
    var first := log[..1];
    assert first[..0] == [] && first[0] == log[0];
    assert Booked(first, a) == (if log[0].accountId == a then log[0].amount else 0.0);
  }

  /** Reading afresh, the second payment sees 50, is escalated instead, and the journal agrees with the balance. */
  lemma FreshBatchKeepsDebit()
    ensures var st := TwoDueStore();
            var c := RunFresh(st, [1, 2], Civil(2024, 2, 1, 0), {});
            && c.outcome.Pass?
            && c.store.payments[1].status == Paid && c.store.payments[2].status == Overdue
            && c.store.accounts[1].balance == 50.0
            && Booked(c.store.log, 1) == -100.0
  {
    var st := TwoDueStore();
    var now := Civil(2024, 2, 1, 0);
    var c1 := Step(st, Load(st, 1), now, {});
    assert c1.store.accounts[1].balance == 50.0;
    var c2 := Step(c1.store, Load(c1.store, 2), now, {});
    assert [2][1..] == [];
    assert RunFresh(c1.store, [2], now, {}) == c2;
    assert [1, 2][1..] == [2];
    assert RunFresh(st, [1, 2], now, {}) == c2;
    assert c2.store.log == [DebitRow(Load(st, 1))];
    assert [DebitRow(Load(st, 1))][..0] == [];
  }
}

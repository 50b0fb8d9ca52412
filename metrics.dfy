/**
 * The counters of the application `Metrics`: requests and their latency,
 * the card-counter state machine and the error tally. Clock readings are
 * parameters; durations and instants are nanosecond counts.
 */
module Metrics {
  import opened Wrappers
  import opened GoArith

  /* ---------------------------------------------------------- error tally */

  /** A count read from a Go map: a missing key reads as 0. */
  function Count(m: map<string, int>, k: string): int {
    if k in m then m[k] else 0
  }

  ghost function Pick(m: map<string, int>): string
    requires m != map[]
  {
    var k :| k in m; k
  }

  /** The sum of all per-type counts. */
  ghost function Tally(m: map<string, int>): int
    decreases |m|
  {
    if m == map[] then 0 else m[Pick(m)] + Tally(m - {Pick(m)})
  }

  lemma {:induction false} TallyRemove(m: map<string, int>, k: string)
    requires k in m
    ensures Tally(m) == m[k] + Tally(m - {k})
    decreases |m|
  {
    var x := Pick(m);
    if x != k {
      TallyRemove(m - {x}, k);
      TallyRemove(m - {k}, x);
      assert m - {x} - {k} == m - {k} - {x};
    }
  }

  /** Counting one more error of one type raises the sum of the counts by one. */
  lemma TallyIncrement(m: map<string, int>, k: string)
    ensures Tally(m[k := Count(m, k) + 1]) == Tally(m) + 1
  {
    var m' := m[k := Count(m, k) + 1];
    TallyRemove(m', k);
    assert m' - {k} == m - {k};
    if k in m {
      TallyRemove(m, k);
    } else {
      assert m - {k} == m;
    }
  }

  /** The type under which an error is counted: its text, or "unknown" for nil. */
  function ErrorType(err: Option<string>): (t: string)
    ensures err.Some? ==> t == err.value
    ensures err.None? ==> t == "unknown"
  {
    match err
    case Some(text) => text
    case None => "unknown"
  }

  /* --------------------------------------------------------- card counters */

  datatype CardCounters = CardCounters(total: int, active: int, blocked: int, expired: int)

  /** Every card counted in total is active, blocked or expired. */
  predicate Conserved(c: CardCounters) {
    c.active + c.blocked + c.expired == c.total
  }

  /** The counter effect of a card operation; an operation name outside the switch changes nothing. */
  function CardStep(c: CardCounters, operation: string): (c': CardCounters)
    ensures Conserved(c') <==> Conserved(c)
    ensures operation !in {"create", "delete", "block", "unblock", "expire"} ==> c' == c
    ensures c'.total - c.total == (if operation == "create" then 1 else if operation == "delete" then -1 else 0)
    ensures operation in {"block", "unblock", "expire"} ==>
              c'.total == c.total && c'.active + c'.blocked + c'.expired == c.active + c.blocked + c.expired
    ensures operation in {"create", "delete"} ==> c'.active - c.active == c'.total - c.total
                                                   && c'.blocked == c.blocked && c'.expired == c.expired
    ensures operation == "block" ==> c'.active == c.active - 1 && c'.blocked == c.blocked + 1 && c'.expired == c.expired
    ensures operation == "unblock" ==> c'.active == c.active + 1 && c'.blocked == c.blocked - 1 && c'.expired == c.expired
    ensures operation == "expire" ==> c'.active == c.active - 1 && c'.expired == c.expired + 1 && c'.blocked == c.blocked
  {
    if operation == "create" then c.(total := c.total + 1, active := c.active + 1)
    else if operation == "delete" then c.(total := c.total - 1, active := c.active - 1)
    else if operation == "block" then c.(active := c.active - 1, blocked := c.blocked + 1)
    else if operation == "unblock" then c.(active := c.active + 1, blocked := c.blocked - 1)
    else if operation == "expire" then c.(active := c.active - 1, expired := c.expired + 1)
    else c
  }

  /** How many times the name occurs in the sequence. */
  function Occurrences(operations: seq<string>, name: string): nat {
    if |operations| == 0 then 0
    else Occurrences(operations[..|operations| - 1], name) + (if operations[|operations| - 1] == name then 1 else 0)
  }

  /** Any sequence of card operations keeps the counters conserved, and moves the total by creations less deletions. */
  function CardSteps(c: CardCounters, operations: seq<string>): (c': CardCounters)
    ensures Conserved(c) ==> Conserved(c')
    ensures c'.total - c.total == Occurrences(operations, "create") - Occurrences(operations, "delete")
    decreases |operations|
  {
    if |operations| == 0 then c
    else CardStep(CardSteps(c, operations[..|operations| - 1]), operations[|operations| - 1])
  }

  /* ---------------------------------------------------------------- state */

  class Metrics {
    var totalRequests: int
    var failedRequests: int
    var requestLatency: int
    var averageLatency: int
    var lastRequestTime: int

    var totalCards: int
    var activeCards: int
    var blockedCards: int
    var expiredCards: int
    var lastCardOperation: int

    var errorCount: int
    var lastErrorTime: int
    var errorTypes: map<string, int>
    var criticalErrors: int

    function Cards(): CardCounters
      reads this
    {
      CardCounters(totalCards, activeCards, blockedCards, expiredCards)
    }

    /**
     * The relations the updates keep: failed requests are among the requests,
     * the card counters are conserved, and the per-type error counts sum to
     * the error count.
     */
    ghost predicate Valid()
      reads this
    {
      && 0 <= failedRequests <= totalRequests
      && Conserved(Cards())
      && Tally(errorTypes) == errorCount
    }

    /** The zero state `GetMetrics` creates. */
    constructor ()
      ensures totalRequests == 0 && failedRequests == 0 && requestLatency == 0 && averageLatency == 0
      ensures Cards() == CardCounters(0, 0, 0, 0)
      ensures errorCount == 0 && errorTypes == map[] && criticalErrors == 0
      ensures Valid()
    {
      totalRequests := 0;
      failedRequests := 0;
      requestLatency := 0;
      averageLatency := 0;
      lastRequestTime := 0;
      totalCards := 0;
      activeCards := 0;
      blockedCards := 0;
      expiredCards := 0;
      lastCardOperation := 0;
      errorCount := 0;
      lastErrorTime := 0;
      errorTypes := map[];
      criticalErrors := 0;
    }

    /** `RecordError`: one more error, counted under its type. */
    method RecordError(err: Option<string>, now: int)
      modifies this
      ensures errorCount == old(errorCount) + 1 && lastErrorTime == now
      ensures errorTypes == old(errorTypes)[ErrorType(err) := Count(old(errorTypes), ErrorType(err)) + 1]
      ensures Tally(errorTypes) == old(Tally(errorTypes)) + 1
      ensures totalRequests == old(totalRequests) && failedRequests == old(failedRequests)
      ensures requestLatency == old(requestLatency) && averageLatency == old(averageLatency)
      ensures lastRequestTime == old(lastRequestTime) && lastCardOperation == old(lastCardOperation)
      ensures Cards() == old(Cards()) && criticalErrors == old(criticalErrors)
      ensures old(Valid()) ==> Valid()
    {
      errorCount := errorCount + 1;
      lastErrorTime := now;
      var errorType := if err.Some? then err.value else "unknown";
      TallyIncrement(errorTypes, errorType);
      errorTypes := errorTypes[errorType := Count(errorTypes, errorType) + 1];
    }

    /**
     * `RecordRequest`: one more request and its latency, the running average
     * by Go's truncating division, and a failed request recorded as an error.
     */
    method RecordRequest(duration: int, err: Option<string>, now: int)
      modifies this
      requires totalRequests >= 0
      ensures totalRequests == old(totalRequests) + 1 && requestLatency == old(requestLatency) + duration
      ensures averageLatency == TruncDiv(requestLatency, totalRequests) && lastRequestTime == now
      ensures failedRequests == old(failedRequests) + (if err.Some? then 1 else 0)
      ensures errorCount == old(errorCount) + (if err.Some? then 1 else 0)
      ensures err.None? ==> errorTypes == old(errorTypes) && lastErrorTime == old(lastErrorTime)
      ensures err.Some? ==> errorTypes == old(errorTypes)[err.value := Count(old(errorTypes), err.value) + 1] && lastErrorTime == now
      ensures Cards() == old(Cards()) && lastCardOperation == old(lastCardOperation) && criticalErrors == old(criticalErrors)
      ensures old(Valid()) ==> Valid()
    {
      totalRequests := totalRequests + 1;
      requestLatency := requestLatency + duration;
      averageLatency := TruncDiv(requestLatency, totalRequests);
      lastRequestTime := now;
      if err.Some? {
        failedRequests := failedRequests + 1;
        RecordError(err, now);
      }
    }

    /** `RecordCardOperation`: the counter effect of the named operation, then the error if there is one. */
    method RecordCardOperation(operation: string, err: Option<string>, now: int)
      modifies this
      ensures Cards() == CardStep(old(Cards()), operation) && lastCardOperation == now
      ensures errorCount == old(errorCount) + (if err.Some? then 1 else 0)
      ensures err.None? ==> errorTypes == old(errorTypes) && lastErrorTime == old(lastErrorTime)
      ensures err.Some? ==> errorTypes == old(errorTypes)[err.value := Count(old(errorTypes), err.value) + 1] && lastErrorTime == now
      ensures totalRequests == old(totalRequests) && failedRequests == old(failedRequests)
      ensures requestLatency == old(requestLatency) && averageLatency == old(averageLatency)
      ensures lastRequestTime == old(lastRequestTime) && criticalErrors == old(criticalErrors)
      ensures old(Valid()) ==> Valid()
    {
      lastCardOperation := now;
      if operation == "create" {
        totalCards := totalCards + 1;
        activeCards := activeCards + 1;
      } else if operation == "delete" {
        totalCards := totalCards - 1;
        activeCards := activeCards - 1;
      } else if operation == "block" {
        activeCards := activeCards - 1;
        blockedCards := blockedCards + 1;
      } else if operation == "unblock" {
        activeCards := activeCards + 1;
        blockedCards := blockedCards - 1;
      } else if operation == "expire" {
        activeCards := activeCards - 1;
        expiredCards := expiredCards + 1;
      }
      assert Cards() == CardStep(old(Cards()), operation);
      if err.Some? {
        RecordError(err, now);
      }
    }

    /** `RecordCriticalError`: one more critical error, also recorded as an error. */
    method RecordCriticalError(err: Option<string>, now: int)
      modifies this
      ensures criticalErrors == old(criticalErrors) + 1 && errorCount == old(errorCount) + 1 && lastErrorTime == now
      ensures errorTypes == old(errorTypes)[ErrorType(err) := Count(old(errorTypes), ErrorType(err)) + 1]
      ensures totalRequests == old(totalRequests) && failedRequests == old(failedRequests)
      ensures requestLatency == old(requestLatency) && averageLatency == old(averageLatency)
      ensures lastRequestTime == old(lastRequestTime) && lastCardOperation == old(lastCardOperation)
      ensures Cards() == old(Cards())
      ensures old(Valid()) ==> Valid()
    {
      criticalErrors := criticalErrors + 1;
      RecordError(err, now);
    }

    /** `ResetMetrics`: every counter to zero and an empty tally; the timestamps are kept. */
    method ResetMetrics()
      modifies this
      ensures totalRequests == 0 && failedRequests == 0 && requestLatency == 0 && averageLatency == 0
      ensures Cards() == CardCounters(0, 0, 0, 0)
      ensures errorCount == 0 && criticalErrors == 0 && errorTypes == map[]
      ensures lastRequestTime == old(lastRequestTime) && lastCardOperation == old(lastCardOperation)
      ensures lastErrorTime == old(lastErrorTime)
      ensures Valid()
    {
      totalRequests := 0;
      failedRequests := 0;
      requestLatency := 0;
      averageLatency := 0;
      totalCards := 0;
      activeCards := 0;
      blockedCards := 0;
      expiredCards := 0;
      errorCount := 0;
      criticalErrors := 0;
      errorTypes := map[];
    }
  }
}

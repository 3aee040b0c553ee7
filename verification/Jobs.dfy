/** The jobs table and the statements on it. Times are in milliseconds. */
module Jobs {
  import opened Wrappers

  type Id = string

  datatype Status = Available | Retryable | Running | Waiting | Completed | Dead

  datatype Row = Row(
    event: Id,
    handler: string,
    status: Status,
    attempt: nat,
    maxAttempts: nat,
    scheduledAt: int,
    startedAt: Option<int>,
    completedAt: Option<int>,
    createdAt: int)

  type Table = map<Id, Row>

  const QUEUE_PREFIX: string := "queue/"

  /** Pull-mode rows: `handler LIKE 'queue/%'`. */
  predicate IsQueue(handler: string) {
    QUEUE_PREFIX <= handler
  }

  predicate Claimable(row: Row) {
    row.status == Available || row.status == Retryable
  }

  predicate Terminal(row: Row) {
    row.status == Completed || row.status == Dead
  }

  predicate PushDue(row: Row, now: int) {
    Claimable(row) && row.scheduledAt <= now && !IsQueue(row.handler)
  }

  predicate QueueDue(row: Row, handler: string, now: int) {
    row.handler == handler && Claimable(row) && row.scheduledAt <= now
  }

  /** `started_at <= cutoff`, false on NULL. */
  predicate StartedBy(row: Row, cutoff: int) {
    row.startedAt.Some? && row.startedAt.value <= cutoff
  }

  // ---- Effects on one row --------------------------------------------------

  function Claimed(row: Row, now: int): Row {
    row.(status := Running, startedAt := Some(now), attempt := row.attempt + 1)
  }

  function Finished(row: Row, now: int): Row {
    row.(status := Completed, completedAt := Some(now))
  }

  function Buried(row: Row, now: int): Row {
    row.(status := Dead, completedAt := Some(now))
  }

  function Rescheduled(row: Row, at: int): Row {
    row.(status := Retryable, scheduledAt := at)
  }

  function Retried(row: Row, now: int, reset: bool): Row {
    row.(status := Available, scheduledAt := now, attempt := if reset then 0 else row.attempt)
  }

  // ---- Statements ----------------------------------------------------------

  function ClaimAll(t: Table, ids: set<Id>, now: int): Table {
    map id | id in t :: if id in ids then Claimed(t[id], now) else t[id]
  }

  function MarkCompleted(t: Table, id: Id, now: int): Table {
    if id in t then t[id := Finished(t[id], now)] else t
  }

  function MarkRetryable(t: Table, id: Id, at: int): Table {
    if id in t then t[id := Rescheduled(t[id], at)] else t
  }

  function MarkDead(t: Table, id: Id, now: int): Table {
    if id in t then t[id := Buried(t[id], now)] else t
  }

  predicate Stale(row: Row, cutoff: int) {
    row.status == Running && StartedBy(row, cutoff) && !IsQueue(row.handler)
  }

  function RecoverStale(t: Table, now: int, staleSecs: int): Table {
    map id | id in t :: if Stale(t[id], now - 1000 * staleSecs) then Rescheduled(t[id], now) else t[id]
  }

  predicate Invisible(row: Row, handler: string, cutoff: int) {
    row.handler == handler && row.status == Running && StartedBy(row, cutoff)
  }

  function RecoverQueue(t: Table, handler: string, now: int, timeoutSecs: int): Table {
    map id | id in t :: if Invisible(t[id], handler, now - 1000 * timeoutSecs) then Rescheduled(t[id], now) else t[id]
  }

  function ExpireOld(t: Table, now: int, ttlSecs: int): Table {
    map id | id in t :: if Claimable(t[id]) && t[id].createdAt <= now - 1000 * ttlSecs then Buried(t[id], now) else t[id]
  }

  predicate CleanedUp(row: Row, cutoff: int) {
    Terminal(row) && row.completedAt.Some? && row.completedAt.value < cutoff
  }

  function Cleanup(t: Table, now: int, retentionHours: int): Table {
    map id | id in t && !CleanedUp(t[id], now - 3_600_000 * retentionHours) :: t[id]
  }

  /** A manual retry of the listed rows, whatever their status; all but one of its forms reset the attempts. */
  function RetryAll(t: Table, ids: set<Id>, now: int, reset: bool): Table {
    map id | id in t :: if id in ids then Retried(t[id], now, reset) else t[id]
  }

  function DeleteByHandler(t: Table, handler: string): Table {
    map id | id in t && t[id].handler != handler :: t[id]
  }

  // ---- Delays --------------------------------------------------------------

  function Pow2(n: nat): nat {
    if n == 0 then 1 else 2 * Pow2(n - 1)
  }

  function Min(a: int, b: int): int {
    if a <= b then a else b
  }

  /** Base delay in seconds before the attempt after `attempt`. */
  function PushBackoff(attempt: nat): int {
    30 * Pow2(Min(attempt, 10))
  }

  function QueueBackoff(attempt: nat): int {
    Min(30 * Pow2(Min(attempt, 20)), 3600)
  }

  /** A random factor of at least 0.8 and less than 1.2; the product is truncated. */
  predicate IsJitter(j: real) {
    0.8 <= j < 1.2
  }

  function Jittered(base: int, j: real): int {
    (base as real * j).Floor
  }

  /** A Retry-After header counts when it is a number of seconds from 1 to a day. */
  function RetryAfter(parsed: Option<int>): (secs: Option<int>)
    ensures secs.Some? <==> parsed.Some? && 1 <= parsed.value <= 86400
    ensures secs.Some? ==> secs == parsed
  {
    if parsed.Some? && parsed.value > 0 && parsed.value <= 86400 then parsed else None
  }

  function RetryDelay(attempt: nat, retryAfter: Option<int>, j: real): int {
    match RetryAfter(retryAfter)
    case Some(secs) => secs
    case None => Jittered(PushBackoff(attempt), j)
  }

  lemma {:induction false} Pow2Monotone(m: nat, n: nat)
    requires m <= n
    ensures 1 <= Pow2(m) <= Pow2(n)
  {
    if n == 0 {
    } else if m == n {
      Pow2Monotone(n - 1, n - 1);
    } else {
      Pow2Monotone(m, n - 1);
    }
  }

  lemma ProductBounds(x: real, j: real, y: real)
    requires x > 0.0 && IsJitter(j) && y == x * j
    ensures 4.0 * x <= 5.0 * y && 5.0 * y < 6.0 * x
  {
  }

  lemma FloorBounds(base: int, y: real)
    requires 4.0 * base as real <= 5.0 * y && 5.0 * y < 6.0 * base as real
    ensures 4 * base < 5 * y.Floor + 5 && 5 * y.Floor < 6 * base
  {
    var d := y.Floor;
    assert d as real <= y < d as real + 1.0;
    assert (5 * d) as real < (6 * base) as real;
    assert (4 * base) as real < (5 * d + 5) as real;
  }

  /** Within a fifth of the base, up to truncation. */
  predicate Near(base: int, delay: int) {
    4 * base < 5 * delay + 5 && 5 * delay < 6 * base
  }

  lemma JitterBounds(base: int, j: real)
    requires base > 0 && IsJitter(j)
    ensures Near(base, Jittered(base, j))
  {
    var x := base as real;
    var y := x * j;
    ProductBounds(x, j, y);
    FloorBounds(base, y);
  }

  /** A reschedule delay is the downstream's Retry-After or lies in [48 s, 36864 s). */
  lemma RetryDelayBounds(attempt: nat, retryAfter: Option<int>, j: real)
    requires attempt >= 1 && IsJitter(j)
    ensures
      var d := RetryDelay(attempt, retryAfter, j);
      if RetryAfter(retryAfter).Some? then 1 <= d <= 86400 && retryAfter == Some(d) else 48 <= d < 36864
  {
    Pow2Monotone(1, Min(attempt, 10));
    Pow2Monotone(Min(attempt, 10), 10);
    assert Pow2(1) == 2;
    assert Pow2(5) == 32;
    assert Pow2(10) == 1024;
    JitterBounds(PushBackoff(attempt), j);
  }

  // ---- The delays, number by number ----------------------------------------

  /** Seconds before the attempt after the first, second, ... one of a push delivery, up to the tenth. */
  const PUSH_SECONDS: seq<int> := [30, 60, 120, 240, 480, 960, 1920, 3840, 7680, 15360, 30720]

  /** The same for a message that is given back, up to an hour. */
  const QUEUE_SECONDS: seq<int> := [30, 60, 120, 240, 480, 960, 1920, 3600]

  lemma SmallPowers()
    ensures Pow2(0) == 1 && Pow2(1) == 2 && Pow2(2) == 4 && Pow2(3) == 8 && Pow2(4) == 16 && Pow2(5) == 32
    ensures Pow2(6) == 64 && Pow2(7) == 128 && Pow2(8) == 256 && Pow2(9) == 512 && Pow2(10) == 1024
  {
    assert Pow2(3) == 8;
    assert Pow2(6) == 64;
    assert Pow2(9) == 512;
  }

  lemma PushBackoffTable(attempt: nat)
    ensures PushBackoff(attempt) == PUSH_SECONDS[if attempt < 10 then attempt else 10]
  {
    SmallPowers();
  }

  lemma QueueBackoffTable(attempt: nat)
    ensures QueueBackoff(attempt) == QUEUE_SECONDS[if attempt < 7 then attempt else 7]
  {
    SmallPowers();
    if attempt >= 7 {
      Pow2Monotone(7, Min(attempt, 20));
    }
  }

  /** A delay is the Retry-After header's if that is from a second to a day, else the product of table and jitter, truncated. */
  ghost predicate DelayAfter(attempt: nat, header: Option<int>, j: real, delay: int) {
    match header
    case Some(secs) => if 1 <= secs <= 86400 then delay == secs else Truncates(PUSH_SECONDS[if attempt < 10 then attempt else 10], j, delay)
    case None => Truncates(PUSH_SECONDS[if attempt < 10 then attempt else 10], j, delay)
  }

  ghost predicate Truncates(base: int, j: real, delay: int) {
    delay as real <= base as real * j < delay as real + 1.0
  }

  lemma RetryDelayTable(attempt: nat, header: Option<int>, j: real)
    ensures DelayAfter(attempt, header, j, RetryDelay(attempt, header, j))
  {
    PushBackoffTable(attempt);
    var y := PushBackoff(attempt) as real * j;
    assert y.Floor as real <= y < y.Floor as real + 1.0;
  }
}

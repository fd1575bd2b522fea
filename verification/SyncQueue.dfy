/** The retry queue of the memory syncer (internal/continuity/sync.go), over the
    store calls it makes (internal/storage/storage.go). */
module SyncQueue {
  import opened Text
  import opened FileSystem

  // -------------------------------------------------------------------- policies

  datatype Operation =
    | MemoryCapture | CoreUpdate | ScenarioUpdate | WikiIngest | CodeGraphSync | SkillUpdate | MetadataRepair
    | Unnamed | Unknown(name: string)

  /** Durations are nanoseconds. */
  datatype Policy = Policy(maxAttempts: nat, baseDelay: nat, maxDelay: nat)

  const MILLISECOND: nat := 1_000_000
  const SECOND: nat := 1_000_000_000

  /** queueClaimLease. */
  const LEASE: nat := 60 * SECOND

  const MAX_INT64: nat := 0x7FFF_FFFF_FFFF_FFFF

  function PolicyFor(operation: Operation): Policy {
    match operation
    case CodeGraphSync => Policy(6, 100 * MILLISECOND, 5 * SECOND)
    case WikiIngest | SkillUpdate => Policy(5, 75 * MILLISECOND, 3 * SECOND)
    case MetadataRepair => Policy(4, 75 * MILLISECOND, 2 * SECOND)
    case CoreUpdate | ScenarioUpdate => Policy(5, 50 * MILLISECOND, 3 * SECOND)
    case _ => Policy(5, 25 * MILLISECOND, 2 * SECOND)
  }

  function Pow2(n: nat): nat { if n == 0 then 1 else 2 * Pow2(n - 1) }

  function Min(a: int, b: int): int { if a < b then a else b }

  /** Go's remainder, with the sign of the dividend. */
  function Remainder(a: int, b: int): int
    requires b > 0
  {
    if a >= 0 then a % b else -((-a) % b)
  }

  /** The delay before jitter. */
  function BaseDelay(attempts: int, policy: Policy): nat {
    var clamped := if attempts < 0 then 0 else if attempts > 10 then 10 else attempts;
    Min(Pow2(clamped) * policy.baseDelay, policy.maxDelay)
  }

  function RetryDelay(attempts: int, policy: Policy, now: int): int {
    var base := BaseDelay(attempts, policy);
    if base / 5 <= 0 then base else base + Remainder(now, base / 5 + 1)
  }

  lemma Pow2Steps()
    ensures Pow2(0) == 1 && Pow2(5) == 32 && Pow2(6) == 64 && Pow2(7) == 128 && Pow2(10) == 1024
  {
  }

  lemma {:induction false} Pow2Monotone(m: nat, n: nat)
    requires m <= n
    ensures Pow2(m) <= Pow2(n)
  {
    if m < n { Pow2Monotone(m, n - 1); }
  }

  /** The clamp at ten attempts is never felt: every policy reaches its cap
      earlier, so the delay is the doubled base or the cap. */
  lemma BaseDelayIsCappedDoubling(attempts: nat, operation: Operation)
    ensures var p := PolicyFor(operation);
            BaseDelay(attempts, p) == Min(Pow2(attempts) * p.baseDelay, p.maxDelay)
  {
    var p := PolicyFor(operation);
    if attempts > 10 {
      Pow2Steps();
      Pow2Monotone(10, attempts);
      assert Pow2(attempts) * p.baseDelay >= 1024 * p.baseDelay;
    }
  }

  /** Each delay lies between the base and base plus a fifth for clocks after
      1970 (and never more than a fifth below it before), and no intermediate
      value leaves the range of a 64-bit duration. */
  lemma RetryDelayBounds(attempts: int, operation: Operation, now: int)
    ensures var p := PolicyFor(operation);
            var base := BaseDelay(attempts, p);
            && p.baseDelay <= base <= p.maxDelay
            && base - base / 5 <= RetryDelay(attempts, p, now) <= base + base / 5
            && (now >= 0 ==> base <= RetryDelay(attempts, p, now))
            && (now <= 0 ==> RetryDelay(attempts, p, now) <= base)
            && RetryDelay(attempts, p, now) <= 6 * SECOND
    ensures var clamped := if attempts < 0 then 0 else if attempts > 10 then 10 else attempts;
            Pow2(clamped) * PolicyFor(operation).baseDelay <= MAX_INT64
  {
    hide Pow2;
    var clamped := if attempts < 0 then 0 else if attempts > 10 then 10 else attempts;
    Pow2Steps();
    Pow2Monotone(0, clamped);
    Pow2Monotone(clamped, 10);
    var p := PolicyFor(operation);
    ScaledBase(p.baseDelay, Pow2(clamped));
    JitterBounds(BaseDelay(attempts, p), now);
  }

  lemma ScaledBase(base: nat, factor: nat)
    requires 1 <= factor <= 1024
    ensures base <= factor * base <= 1024 * base
  {
  }

  lemma JitterBounds(base: nat, now: int)
    ensures -(base / 5) <= Remainder(now, base / 5 + 1) <= base / 5
    ensures now >= 0 ==> 0 <= Remainder(now, base / 5 + 1)
    ensures now <= 0 ==> Remainder(now, base / 5 + 1) <= 0
  {
  }

  /** The jitter reaches every delay within that fifth. */
  lemma JitterSpreads(attempts: int, operation: Operation, delay: int)
    requires var base := BaseDelay(attempts, PolicyFor(operation)); base - base / 5 <= delay <= base + base / 5
    ensures var p := PolicyFor(operation); RetryDelay(attempts, p, delay - BaseDelay(attempts, p)) == delay
  {
    var base := BaseDelay(attempts, PolicyFor(operation));
    hide BaseDelay;
    SmallRemainder(delay - base, base / 5 + 1);
  }

  lemma SmallRemainder(a: int, b: int)
    requires -b < a < b
    ensures Remainder(a, b) == a
  {
    SmallModulus(if a >= 0 then a else -a, b);
  }

  lemma SmallModulus(a: nat, b: nat)
    requires a < b
    ensures a % b == a
  {
  }

  /** Later attempts never wait on a smaller base. */
  lemma BaseDelayMonotone(a: nat, b: nat, operation: Operation)
    requires a <= b
    ensures BaseDelay(a, PolicyFor(operation)) <= BaseDelay(b, PolicyFor(operation))
  {
    var p := PolicyFor(operation);
    BaseDelayIsCappedDoubling(a, operation);
    BaseDelayIsCappedDoubling(b, operation);
    Pow2Monotone(a, b);
    assert Pow2(a) * p.baseDelay <= Pow2(b) * p.baseDelay;
  }

  /** The base delays of the first n failures together. */
  ghost function TotalDelay(n: nat, policy: Policy): nat {
    if n == 0 then 0 else TotalDelay(n - 1, policy) + BaseDelay(n - 1, policy)
  }

  /** Up to its last attempt a row never waits for the cap, and in all (before
      jitter) 3.1 seconds to resynchronise a code graph, about one second to
      ingest or to update, less for the rest; what comes later would wait for two,
      three or five seconds each time. */
  lemma WaitsExactly(operation: Operation)
    ensures var p := PolicyFor(operation);
            && p.maxAttempts >= 1 && forall k :: 0 <= k < p.maxAttempts ==> BaseDelay(k, p) < p.maxDelay
    ensures var p := PolicyFor(operation);
            TotalDelay(p.maxAttempts - 1, p) == MILLISECOND * match operation
              case CodeGraphSync => 3_100
              case WikiIngest | SkillUpdate => 1_125
              case CoreUpdate | ScenarioUpdate => 750
              case MetadataRepair => 525
              case _ => 375
    ensures forall k :: k >= 7 ==>
              BaseDelay(k, PolicyFor(operation)) == SECOND * match operation
                case CodeGraphSync => 5
                case WikiIngest | SkillUpdate | CoreUpdate | ScenarioUpdate => 3
                case _ => 2
  {
    var p := PolicyFor(operation);
    assert Pow2(0) == 1 && Pow2(1) == 2 && Pow2(2) == 4 && Pow2(3) == 8 && Pow2(4) == 16;
    Pow2Steps();
    assert TotalDelay(0, p) == 0 && TotalDelay(1, p) == p.baseDelay && TotalDelay(2, p) == 3 * p.baseDelay;
    assert TotalDelay(3, p) == 7 * p.baseDelay && TotalDelay(4, p) == 15 * p.baseDelay;
    assert operation == CodeGraphSync ==> TotalDelay(5, p) == 31 * p.baseDelay;
    forall k | k >= 7 ensures BaseDelay(k, p) == p.maxDelay {
      BaseDelayIsCappedDoubling(k, operation);
      Pow2Monotone(7, k);
      assert Pow2(k) * p.baseDelay >= 128 * p.baseDelay;
    }
  }

  // ------------------------------------------------------------------------ rows

  type QueueId = string

  datatype Status = Pending | Sending | Delivered | DeadLetter

  /** What decoding the payload shows: no capture, a capture for another
      project, team, agent or user, or one of ours. */
  datatype Payload = Undecodable | Foreign | Ours

  /** A row of sync_queue.  `oversized`: the last error is the provider's size
      limit; `claimedAt`: updated_at of a claimed row.  The last four fields are
      bookkeeping of the model over the whole life of the row: its claims, the
      claims whose result was never recorded, the failures that a requeue took off
      `attempts`, and the requeues. */
  datatype Row = Row(
    operation: Operation,
    payload: Payload,
    status: Status,
    attempts: nat,
    nextRetry: Option<int>,
    oversized: bool,
    createdAt: int,
    claimedAt: int,
    claims: nat,
    lost: nat,
    forgiven: nat,
    requeues: nat)

  datatype Item = Item(id: QueueId, operation: Operation, payload: Payload, attempts: nat)

  function ItemOf(id: QueueId, r: Row): Item { Item(id, r.operation, r.payload, r.attempts) }

  function Fresh(operation: Operation, payload: Payload, at: int): Row {
    Row(operation, payload, Pending, 0, None, false, at, at, 0, 0, 0, 0)
  }

  function Claim(r: Row, at: int): Row { r.(status := Sending, claimedAt := at, claims := r.claims + 1) }

  function Deliver(r: Row): Row { r.(status := Delivered, oversized := false) }

  function Retry(r: Row, next: int, oversized: bool): Row {
    r.(status := Pending, attempts := r.attempts + 1, nextRetry := Some(next), oversized := oversized)
  }

  function Bury(r: Row, oversized: bool): Row {
    r.(status := DeadLetter, attempts := r.attempts + 1, nextRetry := None, oversized := oversized)
  }

  /** recoverStaleQueueClaims: a claim as old as its lease is taken back. */
  function Recover(r: Row, now: int): Row {
    if r.status == Sending && r.claimedAt <= now - LEASE then r.(status := Pending, lost := r.lost + 1) else r
  }

  /** What both requeues do to a dead letter: it starts over at attempt zero. */
  function StartOver(r: Row): Row {
    r.(status := Pending, attempts := 0, nextRetry := None, oversized := false,
       forgiven := r.forgiven + r.attempts, requeues := r.requeues + 1)
  }

  /** RequeueOversizedMemoryCaptures, which every flush calls first. */
  function Requeue(r: Row): Row {
    if r.operation == MemoryCapture && r.status == DeadLetter && r.oversized then StartOver(r) else r
  }

  /** RequeueDeadLetter, the operator's action. */
  function OperatorRequeue(r: Row): Row { if r.status == DeadLetter then StartOver(r) else r }

  predicate Due(r: Row, now: int) { r.status == Pending && (r.nextRetry.None? || r.nextRetry.value <= now) }

  /** When a row is tried: a new one at once, a failed one when its time has come, a
      claimed one only after its claim was taken back, which no claim younger than a
      minute is, a buried one after a requeue, a delivered one never again. */
  lemma TriedWhen(r: Row, next: int, oversized: bool, at: int, now: int)
    ensures Due(Fresh(r.operation, r.payload, at), now)
    ensures Due(Retry(r, next, oversized), now) <==> next <= now
    ensures !Due(Claim(r, at), now) && !Due(Deliver(r), now) && !Due(Bury(r, oversized), now)
    ensures r.status == Pending ==>
              (Recover(Claim(r, at), now) == Claim(r, at) <==> now - at < 60 * SECOND)
              && (Due(r, now) && now - at >= 60 * SECOND ==> Due(Recover(Claim(r, at), now), now))
    ensures r.status == DeadLetter ==> Due(OperatorRequeue(r), now)
    ensures r.status == DeadLetter && r.operation == MemoryCapture && r.oversized ==> Due(Requeue(r), now)
    ensures r.status != Sending ==> Recover(r, now) == r
    ensures r.status != DeadLetter ==> OperatorRequeue(r) == r && Requeue(r) == r
  {
  }

  /** A row counts as oversized exactly while that was its last error. */
  lemma OversizedIsTheLastError(r: Row, next: int, oversized: bool, at: int)
    ensures Retry(r, next, oversized).oversized == Bury(r, oversized).oversized == oversized
    ensures !Fresh(r.operation, r.payload, at).oversized && !Deliver(r).oversized
    ensures r.status == DeadLetter ==> !OperatorRequeue(r).oversized && (Requeue(r) == r || !Requeue(r).oversized)
    ensures Claim(r, at).oversized == r.oversized == Recover(r, at).oversized
  {
  }

  /** A payload that can never be delivered is buried at once. */
  predicate Poison(operation: Operation, payload: Payload) {
    (operation == MemoryCapture || operation == Unnamed) && payload != Ours
  }

  // ------------------------------------------------------------------- invariant

  /** How often a row may fail between two requeues: once if it is poison. */
  function Allowed(r: Row): nat { if Poison(r.operation, r.payload) then 1 else PolicyFor(r.operation).maxAttempts }

  function InFlight(r: Row): nat { if r.status == Sending || r.status == Delivered then 1 else 0 }

  /** The promises of the queue about one row. */
  ghost predicate RowGood(r: Row) {
    && (if r.status == DeadLetter then r.attempts == Allowed(r) else r.attempts < Allowed(r))
    && r.forgiven == Allowed(r) * r.requeues
    && r.claims == r.forgiven + r.attempts + r.lost + InFlight(r)
  }

  type Rows = map<QueueId, Row>

  ghost predicate RowsGood(rows: Rows) { forall id :: id in rows ==> RowGood(rows[id]) }

  /** Over its whole life a row is tried at most as often as its policy allows,
      as many times again for each requeue, and once for each claim that was lost
      (a process died holding it, or the store could not record its result); it
      is buried on exactly the last allowed attempt. */
  lemma AttemptsAreBounded(r: Row)
    requires RowGood(r)
    ensures r.claims <= Allowed(r) * (r.requeues + 1) + r.lost
    ensures r.status == DeadLetter <==> r.attempts == Allowed(r)
    ensures r.status == DeadLetter ==> r.claims == Allowed(r) * (r.requeues + 1) + r.lost
  {
    assert Allowed(r) * (r.requeues + 1) == Allowed(r) * r.requeues + Allowed(r);
  }

  /** Not tried since it was last requeued. */
  predicate Untried(r: Row) { r.status == Pending && r.attempts == 0 }

  /** When the tries that left a trace stay within one policy: exactly for rows
      never requeued, and for rows requeued once and not tried since. */
  lemma WithinPolicyExactly(r: Row)
    requires RowGood(r)
    ensures r.claims - r.lost <= Allowed(r) <==> r.requeues == 0 || (r.requeues == 1 && Untried(r))
  {
    if r.requeues >= 2 {
      assert Allowed(r) * r.requeues == Allowed(r) * 2 + Allowed(r) * (r.requeues - 2);
    }
  }

  ghost predicate DueItems(rows: Rows, items: seq<Item>, now: int) {
    && (forall i :: 0 <= i < |items| ==>
          items[i].id in rows && Due(rows[items[i].id], now) && items[i] == ItemOf(items[i].id, rows[items[i].id]))
    && (forall i, j :: 0 <= i < j < |items| ==> items[i].id != items[j].id)
  }

  ghost predicate Lists(items: seq<Item>, id: QueueId) { exists i :: 0 <= i < |items| && items[i].id == id }

  lemma ListsMore(items: seq<Item>, item: Item, id: QueueId)
    ensures Lists(items + [item], id) <==> Lists(items, id) || id == item.id
  {
    if Lists(items, id) {
      var i :| 0 <= i < |items| && items[i].id == id;
      assert (items + [item])[i].id == id;
    }
    assert (items + [item])[|items|] == item;
  }

  /** In the order of their creation, and none that is due is older than one listed
      instead of it. */
  ghost predicate OldestFirst(rows: Rows, items: seq<Item>, now: int) {
    && (forall i :: 0 <= i < |items| ==> items[i].id in rows)
    && (forall i, j :: 0 <= i < j < |items| ==> rows[items[i].id].createdAt <= rows[items[j].id].createdAt)
    && (forall i, id :: 0 <= i < |items| && id in rows && Due(rows[id], now) && !Lists(items, id) ==>
          rows[items[i].id].createdAt <= rows[id].createdAt)
  }

  lemma {:induction false} OldestOf(rows: Rows, ids: set<QueueId>) returns (oldest: QueueId)
    requires ids != {} && ids <= rows.Keys
    ensures oldest in ids && forall id :: id in ids ==> rows[oldest].createdAt <= rows[id].createdAt
    decreases ids
  {
    var first :| first in ids;
    oldest := first;
    if ids != {first} {
      var rest := ids - {first};
      var other := OldestOf(rows, rest);
      assert forall id :: id in ids ==> id == first || id in rest;
      if rows[other].createdAt < rows[first].createdAt { oldest := other; }
    }
  }

  /** The SELECT of DueQueue: the oldest due rows, as many as asked for. */
  method ListDue(rows: Rows, size: nat, now: int) returns (items: seq<Item>)
    ensures DueItems(rows, items, now) && OldestFirst(rows, items, now) && |items| <= size
    ensures |items| < size ==> forall id :: id in rows && Due(rows[id], now) ==> Lists(items, id)
  {
    assert forall id :: !Lists([], id);
    hide Due, Lists;
    items := [];
    var rest := set id | id in rows && Due(rows[id], now);
    while rest != {} && |items| < size
      invariant |items| <= size && DueItems(rows, items, now)
      invariant forall id :: id in rest <==> id in rows && Due(rows[id], now) && !Lists(items, id)
      invariant OldestFirst(rows, items, now)
      decreases rest
    {
      ghost var first := OldestOf(rows, rest);
      var id :| id in rest && forall other :: other in rest ==> rows[id].createdAt <= rows[other].createdAt;
      rest := rest - {id};
      forall other { ListsMore(items, ItemOf(id, rows[id]), other); }
      NextListed(rows, items, now, id);
      items := items + [ItemOf(id, rows[id])];
    }
  }

  lemma NextListed(rows: Rows, items: seq<Item>, now: int, id: QueueId)
    requires DueItems(rows, items, now) && OldestFirst(rows, items, now)
    requires id in rows && Due(rows[id], now) && !Lists(items, id)
    requires forall other :: other in rows && Due(rows[other], now) && !Lists(items, other) ==>
               rows[id].createdAt <= rows[other].createdAt
    ensures DueItems(rows, items + [ItemOf(id, rows[id])], now)
    ensures OldestFirst(rows, items + [ItemOf(id, rows[id])], now)
  {
    forall other { ListsMore(items, ItemOf(id, rows[id]), other); }
    assert forall i :: 0 <= i < |items| ==> Lists(items, items[i].id);
    hide Due, Lists;
  }

  // ----------------------------------------------------------------------- store

  /** The store calls; any of them may fail and then changes nothing. */
  class Store {
    var rows: Rows

    /** How many calls failed. */
    ghost var refused: nat

    /** No call to a healthy store fails. */
    const healthy: bool

    constructor (healthy: bool)
      ensures rows == map[] && this.healthy == healthy
    {
      rows, this.healthy, refused := map[], healthy, 0;
    }

    method RequeueOversized() returns (ok: bool)
      modifies this
      ensures rows == if ok then map id | id in old(rows) :: Requeue(old(rows)[id]) else old(rows)
      ensures healthy ==> ok
      ensures refused == if ok then old(refused) else old(refused) + 1
    {
      ok := *;
      ok := ok || healthy;
      if !ok { refused := refused + 1; }
      if ok { rows := map id | id in rows :: Requeue(rows[id]); }
    }

    /** Recovers claims past their lease, then lists due rows, oldest first; each of
        the two looks at the clock. */
    method DueQueue(limit: int, swept: int, now: int) returns (ok: bool, items: seq<Item>)
      modifies this
      ensures rows == old(rows) || rows == map id | id in old(rows) :: Recover(old(rows)[id], swept)
      ensures ok ==> rows == map id | id in old(rows) :: Recover(old(rows)[id], swept)
      ensures DueItems(rows, items, now) && OldestFirst(rows, items, now) && (!ok ==> items == [])
      ensures |items| <= if limit <= 0 then 1 else limit
      ensures ok && |items| < (if limit <= 0 then 1 else limit) ==>
                forall id :: id in rows && Due(rows[id], now) ==> Lists(items, id)
      ensures healthy ==> ok
      ensures refused == if ok then old(refused) else old(refused) + 1
    {
      items := [];
      ok := *;
      ok := ok || healthy;
      if !ok { refused := refused + 1; return; }
      rows := map id | id in rows :: Recover(rows[id], swept);
      ok := *;
      ok := ok || healthy;
      if !ok { refused := refused + 1; return; }
      items := ListDue(rows, if limit <= 0 then 1 else limit, now);
    }

    /** UPDATE … WHERE status='pending': at most one claimer wins. */
    method ClaimQueue(id: QueueId) returns (ok: bool, claimed: bool)
      modifies this
      ensures claimed ==> ok && id in old(rows) && old(rows)[id].status == Pending
      ensures ok && !claimed ==> id !in rows || rows[id].status != Pending
      ensures !claimed ==> rows == old(rows)
      ensures claimed ==> id in rows && rows == old(rows)[id := Claim(old(rows)[id], rows[id].claimedAt)]
      ensures healthy ==> ok
      ensures refused == if ok then old(refused) else old(refused) + 1
    {
      ok := *;
      ok := ok || healthy;
      if !ok { refused := refused + 1; }
      claimed := ok && id in rows && rows[id].status == Pending;
      var now: int := *;
      if claimed { rows := rows[id := Claim(rows[id], now)]; }
    }

    method MarkDelivered(id: QueueId) returns (ok: bool)
      modifies this
      ensures ok ==> id in old(rows)
      ensures rows == if ok then old(rows)[id := Deliver(old(rows)[id])] else old(rows)
      ensures healthy && id in old(rows) ==> ok
      ensures refused == if ok then old(refused) else old(refused) + 1
    {
      ok := *;
      ok := ok || healthy;
      ok := ok && id in rows;
      if !ok { refused := refused + 1; }
      if ok { rows := rows[id := Deliver(rows[id])]; }
    }

    method MarkRetry(id: QueueId, next: int, oversized: bool) returns (ok: bool)
      modifies this
      ensures rows == if ok && id in old(rows) then old(rows)[id := Retry(old(rows)[id], next, oversized)]
                else old(rows)
      ensures healthy ==> ok
      ensures refused == if ok then old(refused) else old(refused) + 1
    {
      ok := *;
      ok := ok || healthy;
      if !ok { refused := refused + 1; }
      if ok && id in rows { rows := rows[id := Retry(rows[id], next, oversized)]; }
    }

    method MarkDeadLetter(id: QueueId, oversized: bool) returns (ok: bool)
      modifies this
      ensures rows == if ok && id in old(rows) then old(rows)[id := Bury(old(rows)[id], oversized)] else old(rows)
      ensures healthy ==> ok
      ensures refused == if ok then old(refused) else old(refused) + 1
    {
      ok := *;
      ok := ok || healthy;
      if !ok { refused := refused + 1; }
      if ok && id in rows { rows := rows[id := Bury(rows[id], oversized)]; }
    }
  }

  // ----------------------------------------------------------------------- flush

  /** Whether this failing attempt is the last one, judged by the snapshot. */
  predicate LastAttempt(item: Item) { item.attempts + 1 >= PolicyFor(item.operation).maxAttempts }

  /** The row after a failed attempt was recorded. */
  ghost predicate Failed(item: Item, claimed: Row, after: Row) {
    if LastAttempt(item) then after == Bury(claimed, after.oversized)
        else exists now :: RetriedAt(item, claimed, after, now)
  }

  ghost predicate RetriedAt(item: Item, claimed: Row, after: Row, now: int) {
    after == Retry(claimed, now + RetryDelay(item.attempts, PolicyFor(item.operation), now), after.oversized)
  }

  /** How one item may end: not claimed, delivered, failed and recorded, buried
      as poison, or, when a store call failed, still claimed. */
  datatype Ending = Unclaimed | DeliveredNow | FailedAttempt | Poisoned | LeftClaimed

  ghost predicate Ended(item: Item, before: Row, after: Row, ending: Ending) {
    match ending
    case Unclaimed => after == before
    case DeliveredNow => before.status == Pending && !Poison(item.operation, item.payload)
        && after == Deliver(Claim(before, after.claimedAt))
    case FailedAttempt => before.status == Pending && !Poison(item.operation, item.payload)
        && Failed(item, Claim(before, after.claimedAt), after)
    case Poisoned => before.status == Pending && Poison(item.operation, item.payload)
        && after == Bury(Claim(before, after.claimedAt), false)
    case LeftClaimed => before.status == Pending && after == Claim(before, after.claimedAt)
  }

  /** Only row `id` may differ. */
  ghost predicate OnlyRow(before: Rows, after: Rows, id: QueueId) {
    before.Keys == after.Keys && forall other :: other in before && other != id ==> after[other] == before[other]
  }

  /** retryQueueItem: the answer is always an error. */
  method RetryQueueItem(store: Store, item: Item, oversized: bool) returns (recorded: bool)
    requires item.id in store.rows
    modifies store
    ensures OnlyRow(old(store.rows), store.rows, item.id)
    ensures recorded ==>
              Failed(item, old(store.rows)[item.id], store.rows[item.id]) && store.rows[item.id].oversized == oversized
    ensures !recorded ==> store.rows == old(store.rows)
    ensures store.healthy ==> recorded
    ensures store.refused == if recorded then old(store.refused) else old(store.refused) + 1
  {
    if LastAttempt(item) {
      recorded := store.MarkDeadLetter(item.id, oversized);
      return;
    }
    var now: int := *;
    recorded := store.MarkRetry(item.id, now + RetryDelay(item.attempts, PolicyFor(item.operation), now), oversized);
    assert recorded ==> RetriedAt(item, old(store.rows)[item.id], store.rows[item.id], now);
  }

  // What a flush asks the outside: its budget, the memory backend, the handler of
  // typed operations, and the note that memory was synced.
  datatype Question = InTime | Capture(id: QueueId) | Handle(id: QueueId) | NoteSync

  type FlushWorld = World<Question>
  type Answers = seq<Answer<Question>>

  /** Memory captures, under their name or under none, go to the backend, all
      other operations to the handler. */
  ghost predicate ForBackend(operation: Operation) { operation in {MemoryCapture, Unnamed} }

  /** What can deliver the item is there. */
  ghost predicate Configured(operation: Operation, hasBackend: bool, hasHandler: bool) {
    && (ForBackend(operation) ==> hasBackend)
    && (!ForBackend(operation) ==> hasHandler)
  }

  ghost function Delivery(item: Item): Question {
    if ForBackend(item.operation) then Capture(item.id) else Handle(item.id)
  }

  /** Only what can deliver the item is asked to, once, and it alone delivers. */
  ghost predicate DeliveryTold(item: Item, past: Answers, log: Answers, hasBackend: bool, hasHandler: bool,
                               ending: Ending) {
    && past <= log
    && (|past| < |log| ==>
          log[|past|].question == Delivery(item) && Configured(item.operation, hasBackend, hasHandler))
    && (forall i :: |past| < i < |log| ==> log[i].question == NoteSync)
    && (ending == DeliveredNow ==> |past| < |log| && log[|past|].reply.Granted?)
    && (ending == FailedAttempt ==>
          if Configured(item.operation, hasBackend, hasHandler) then |past| < |log| && !log[|past|].reply.Granted?
          else log == past)
    && (ending == Unclaimed || ending == Poisoned ==> log == past)
    && (if ending == DeliveredNow then |log| == |past| + if ForBackend(item.operation) then 2 else 1
        else |log| <= |past| + 1)
  }

  lemma EndsAs(item: Item, before: Row, claimed: Row, after: Row, ending: Ending)
    requires before.status == Pending && claimed == Claim(before, claimed.claimedAt) && ending != Unclaimed
    requires ending == Poisoned ==> Poison(item.operation, item.payload) && after == Bury(claimed, false)
    requires ending == DeliveredNow || ending == FailedAttempt ==> !Poison(item.operation, item.payload)
    requires ending == DeliveredNow ==> after == Deliver(claimed)
    requires ending == FailedAttempt ==> Failed(item, claimed, after)
    requires ending == LeftClaimed ==> after == claimed
    ensures Ended(item, before, after, ending)
  {
    hide PolicyFor, RetryDelay, LastAttempt, Poison;
  }

  lemma ToldNothing(item: Item, past: Answers, hasBackend: bool, hasHandler: bool, ending: Ending)
    requires ending != DeliveredNow
    requires ending == FailedAttempt ==> !Configured(item.operation, hasBackend, hasHandler)
    ensures DeliveryTold(item, past, past, hasBackend, hasHandler, ending)
  {
  }

  lemma ToldDelivery(item: Item, past: Answers, reply: Reply, notes: Answers, hasBackend: bool, hasHandler: bool,
                     ending: Ending)
    requires Configured(item.operation, hasBackend, hasHandler) && (forall a :: a in notes ==> a.question == NoteSync)
    requires ending in {LeftClaimed, if reply.Granted? then DeliveredNow else FailedAttempt}
    requires |notes| == if ending.DeliveredNow? && ForBackend(item.operation) then 1 else 0
    ensures DeliveryTold(item, past, past + ([Answer(Delivery(item), reply)] + notes), hasBackend, hasHandler, ending)
  {
    hide Configured, ForBackend, Delivery;
    var log := past + ([Answer(Delivery(item), reply)] + notes);
    assert forall i :: |past| < i < |log| ==> log[i] == notes[i - |past| - 1];
  }

  lemma AnswersGranted(past: Answers, reply: Reply, notes: Answers, question: Question)
    ensures AllGranted(past, past + ([Answer(question, reply)] + notes))
            <==> reply.Granted? && forall a :: a in notes ==> a.reply.Granted?
  {
    var log := past + ([Answer(question, reply)] + notes);
    assert log[|past|].reply == reply;
    assert forall i :: 0 <= i < |notes| ==> log[|past| + 1 + i] == notes[i];
    assert forall i :: |past| < i < |log| ==> log[i] == notes[i - |past| - 1];
  }

  /** One turn of Flush's loop; `erred` is whether it sets lastErr. */
  method FlushItem(store: Store, world: FlushWorld, item: Item, hasBackend: bool, hasHandler: bool)
    returns (counted: bool, erred: bool, ending: Ending)
    requires item.id in store.rows
    modifies store, world
    ensures OnlyRow(old(store.rows), store.rows, item.id)
    ensures Ended(item, old(store.rows)[item.id], store.rows[item.id], ending)
    ensures counted <==> ending == DeliveredNow
    ensures !erred ==> store.refused == old(store.refused)
    ensures !erred ==> ending == DeliveredNow || (ending == Unclaimed && old(store.rows)[item.id].status != Pending)
    ensures store.healthy && old(store.rows)[item.id].status == Pending ==>
              ending != Unclaimed && ending != LeftClaimed
                  && (ending == Poisoned <==> Poison(item.operation, item.payload))
    ensures DeliveryTold(item, old(world.log), world.log, hasBackend, hasHandler, ending)
    ensures store.healthy && old(store.rows)[item.id].status == Pending && !Poison(item.operation, item.payload)
            && AllGranted(old(world.log), world.log) ==>
              if Configured(item.operation, hasBackend, hasHandler) then ending == DeliveredNow && !erred
              else ending == FailedAttempt
    ensures ending == FailedAttempt ==>
              (store.rows[item.id].oversized
               <==> |old(world.log)| < |world.log| && world.log[|old(world.log)|].reply.TooLarge?)
    ensures store.healthy ==>
              (erred <==> ending == FailedAttempt || ending == Poisoned || !AllGranted(old(world.log), world.log))
  {
    hide Ended, Failed, DeliveryTold, AllGranted, PolicyFor, RetryDelay, LastAttempt, Delivery;
    ghost var before, heard := store.rows[item.id], world.log;
    NothingGranted(heard);
    var ok, claimed := store.ClaimQueue(item.id);
    ghost var held := store.rows[item.id];
    if !claimed {
      ToldNothing(item, heard, hasBackend, hasHandler, Unclaimed);
      UnclaimedEnds(item, before);
      return false, !ok, Unclaimed;
    }
    var capture := item.operation == MemoryCapture || item.operation == Unnamed;
    if capture && item.payload != Ours {
      var buried := store.MarkDeadLetter(item.id, false);
      ending := if buried then Poisoned else LeftClaimed;
      EndsAs(item, before, held, store.rows[item.id], ending);
      ToldNothing(item, heard, hasBackend, hasHandler, ending);
      return false, true, ending;
    }
    if !(if capture then hasBackend else hasHandler) {
      var recorded := RetryQueueItem(store, item, false);
      ending := if recorded then FailedAttempt else LeftClaimed;
      EndsAs(item, before, held, store.rows[item.id], ending);
      ToldNothing(item, heard, hasBackend, hasHandler, ending);
      return false, true, ending;
    }
    var reply := world.Ask(if capture then Capture(item.id) else Handle(item.id));
    DeliveryIs(item);
    AnswersGranted(heard, reply, [], Delivery(item));
    assert world.log == heard + ([Answer(Delivery(item), reply)] + []);
    if !reply.Granted? {
      var recorded := RetryQueueItem(store, item, reply.TooLarge?);
      ending := if recorded then FailedAttempt else LeftClaimed;
      EndsAs(item, before, held, store.rows[item.id], ending);
      ToldDelivery(item, heard, reply, [], hasBackend, hasHandler, ending);
      return false, true, ending;
    }
    var marked := store.MarkDelivered(item.id);
    ending := if marked then DeliveredNow else LeftClaimed;
    EndsAs(item, before, held, store.rows[item.id], ending);
    if !marked || !capture {
      ToldDelivery(item, heard, reply, [], hasBackend, hasHandler, ending);
      return marked, !marked, ending;
    }
    var synced := world.Ask(NoteSync);
    ghost var note := [Answer(NoteSync, synced)];
    assert world.log == heard + ([Answer(Delivery(item), reply)] + note);
    AnswersGranted(heard, reply, note, Delivery(item));
    ToldDelivery(item, heard, reply, note, hasBackend, hasHandler, ending);
    return true, !synced.Granted?, DeliveredNow;
  }

  lemma NothingGranted(past: Answers)
    ensures AllGranted(past, past)
  {
  }

  lemma UnclaimedEnds(item: Item, row: Row)
    ensures Ended(item, row, row, Unclaimed)
  {
  }

  lemma DeliveryIs(item: Item)
    ensures Delivery(item) == if item.operation == MemoryCapture || item.operation == Unnamed then Capture(item.id)
                              else Handle(item.id)
  {
  }

  ghost function Ids(items: seq<Item>): set<QueueId> { set i | i in items :: i.id }

  ghost function DeliveredIn(endings: map<QueueId, Ending>): set<QueueId> {
    set id | id in endings && endings[id] == DeliveredNow
  }

  /** How a flush treats the rows its listing left: only listed ones change,
      each to one of the endings, and the delivered ones are counted. */
  ghost predicate FlushedTo(listed: Rows, after: Rows, endings: map<QueueId, Ending>, delivered: nat) {
    && listed.Keys == after.Keys && endings.Keys <= listed.Keys
    && (forall id :: id in listed && id !in endings ==> after[id] == listed[id])
    && (forall id :: id in endings ==>
        listed[id].status == Pending && Ended(ItemOf(id, listed[id]), listed[id], after[id], endings[id]))
    && delivered == |DeliveredIn(endings)|
  }

  lemma DeliveredOneMore(endings: map<QueueId, Ending>, id: QueueId, ending: Ending)
    requires id !in endings
    ensures |DeliveredIn(endings[id := ending])| == |DeliveredIn(endings)| + if ending == DeliveredNow then 1 else 0
  {
    var longer := endings[id := ending];
    if ending == DeliveredNow {
      assert DeliveredIn(longer) == DeliveredIn(endings) + {id};
    } else {
      assert DeliveredIn(longer) == DeliveredIn(endings);
    }
  }

  lemma FlushedOneMore(listed: Rows, before: Rows, after: Rows, endings: map<QueueId, Ending>, delivered: nat,
                       id: QueueId, ending: Ending)
    requires FlushedTo(listed, before, endings, delivered) && id in listed && id !in endings
              && listed[id].status == Pending
    requires OnlyRow(before, after, id) && Ended(ItemOf(id, listed[id]), listed[id], after[id], ending)
    ensures FlushedTo(listed, after, endings[id := ending], if ending == DeliveredNow then delivered + 1 else delivered)
  {
    hide Ended, DeliveredIn, ItemOf;
    DeliveredOneMore(endings, id, ending);
  }

  /** Repairs made before a flush: requeued provider-limit failures and claims
      past their lease. */
  ghost predicate PreparedFrom(before: Rows, listed: Rows, swept: int) {
    before.Keys == listed.Keys
    && forall id :: id in before ==>
        || listed[id] in {before[id], Requeue(before[id])}
        || listed[id] == Recover(Requeue(before[id]), swept)
  }

  lemma PreparedKeepsGood(before: Rows, listed: Rows, swept: int)
    requires RowsGood(before) && PreparedFrom(before, listed, swept)
    ensures RowsGood(listed)
  {
  }

  lemma EndingKeepsGood(id: QueueId, before: Row, after: Row, ending: Ending)
    requires RowGood(before) && Ended(ItemOf(id, before), before, after, ending)
    ensures RowGood(after)
  {
  }

  lemma FlushKeepsGood(listed: Rows, after: Rows, endings: map<QueueId, Ending>, delivered: nat)
    requires RowsGood(listed) && FlushedTo(listed, after, endings, delivered)
    ensures RowsGood(after)
  {
    forall id | id in after ensures RowGood(after[id]) {
      if id in endings { EndingKeepsGood(id, listed[id], after[id], endings[id]); }
    }
  }

  /** The returned count is the number of rows that became delivered. */
  lemma CountIsDeliveries(listed: Rows, after: Rows, endings: map<QueueId, Ending>, delivered: nat)
    requires FlushedTo(listed, after, endings, delivered)
    ensures delivered == |set id | id in listed && listed[id].status != Delivered && after[id].status == Delivered|
  {
    assert DeliveredIn(endings) == set id | id in listed && listed[id].status != Delivered
        && after[id].status == Delivered;
  }

  /** How an item ends when the store works and nothing is refused. */
  ghost function Settlement(item: Item, hasBackend: bool, hasHandler: bool): Ending {
    if ForBackend(item.operation) && item.payload != Ours then Poisoned
    else if Configured(item.operation, hasBackend, hasHandler) then DeliveredNow
    else FailedAttempt
  }

  ghost predicate SettledAs(items: seq<Item>, endings: map<QueueId, Ending>, hasBackend: bool, hasHandler: bool) {
    forall i :: i in items ==> i.id in endings && endings[i.id] == Settlement(i, hasBackend, hasHandler)
  }

  /** How often the time left was looked at. */
  ghost function Looks(log: Answers): nat {
    if log == [] then 0 else Looks(log[..|log| - 1]) + if log[|log| - 1].question == InTime then 1 else 0
  }

  lemma {:induction false} LooksAppend(a: Answers, b: Answers)
    ensures Looks(a + b) == Looks(a) + Looks(b)
  {
    if b == [] {
      assert a + b == a;
    } else {
      assert (a + b)[..|a + b| - 1] == a + b[..|b| - 1];
      LooksAppend(a, b[..|b| - 1]);
    }
  }

  lemma {:induction false} NoLooks(log: Answers)
    requires forall i :: 0 <= i < |log| ==> log[i].question != InTime
    ensures Looks(log) == 0
  {
    if log != [] { NoLooks(log[..|log| - 1]); }
  }

  /** One turn looks at the time once. */
  lemma OneMoreLook(heard: Answers, before: Answers, reply: Reply, log: Answers, item: Item, hasBackend: bool,
                    hasHandler: bool, ending: Ending)
    requires heard <= before && before + [Answer(InTime, reply)] <= log
    requires DeliveryTold(item, before + [Answer(InTime, reply)], log, hasBackend, hasHandler, ending)
    ensures heard <= log && Looks(log[|heard|..]) == Looks(before[|heard|..]) + 1
  {
    var asked := before + [Answer(InTime, reply)];
    var rest := log[|asked|..];
    assert forall i :: 0 <= i < |rest| ==> rest[i] == log[|asked| + i];
    NoLooks(rest);
    assert log[|heard|..] == before[|heard|..] + ([Answer(InTime, reply)] + rest);
    LooksAppend(before[|heard|..], [Answer(InTime, reply)] + rest);
    LooksAppend([Answer(InTime, reply)], rest);
    OneLook(reply);
  }

  lemma OneLook(reply: Reply)
    ensures Looks([Answer(InTime, reply)]) == 1
  {
    assert [Answer(InTime, reply)][..0] == [];
  }

  /** No look at the time was refused. */
  ghost predicate InTimeSoFar(past: Answers, log: Answers) {
    forall i :: |past| <= i < |log| && log[i].question == InTime ==> log[i].reply.Granted?
  }

  lemma InTimeAgain(heard: Answers, told: Answers, reply: Reply, log: Answers, item: Item, hasBackend: bool,
                    hasHandler: bool, ending: Ending)
    requires heard <= told && InTimeSoFar(heard, told) && reply.Granted?
    requires DeliveryTold(item, told + [Answer(InTime, reply)], log, hasBackend, hasHandler, ending)
    ensures InTimeSoFar(heard, log)
  {
    var asked := told + [Answer(InTime, reply)];
    assert asked <= log;
    forall i | |heard| <= i < |log| && log[i].question == InTime ensures log[i].reply.Granted? {
      if i < |asked| { assert log[i] == asked[i]; }
    }
  }

  /** The flush looks at its time before every item, and goes on to the end unless
      it is used up; then it stops. */
  ghost predicate LoopTold(items: seq<Item>, past: Answers, log: Answers, endings: map<QueueId, Ending>) {
    && past <= log
    && (endings.Keys == Ids(items) ==> Looks(log[|past|..]) == |items| && InTimeSoFar(past, log))
    && (endings.Keys != Ids(items) ==>
          && |past| < |log| && log[|log| - 1].question == InTime && !log[|log| - 1].reply.Granted?
          && InTimeSoFar(past, log[..|log| - 1])
          && exists n :: 0 <= n < |items| && endings.Keys == Ids(items[..n]) && Looks(log[|past|..]) == n + 1)
  }

  /** The loop of Flush over the items just listed. */
  method FlushListed(store: Store, world: FlushWorld, items: seq<Item>, hasBackend: bool, hasHandler: bool)
    returns (delivered: nat, failed: bool, ghost endings: map<QueueId, Ending>)
    requires forall i :: 0 <= i < |items| ==>
               items[i].id in store.rows && store.rows[items[i].id].status == Pending
               && items[i] == ItemOf(items[i].id, store.rows[items[i].id])
    requires forall i, j :: 0 <= i < j < |items| ==> items[i].id != items[j].id
    modifies store, world
    ensures FlushedTo(old(store.rows), store.rows, endings, delivered)
    ensures endings.Keys <= Ids(items)
    ensures !failed ==> endings.Keys == Ids(items) && forall id :: id in endings ==> endings[id] == DeliveredNow
    ensures forall id :: id in endings && endings[id] == LeftClaimed ==> failed
    ensures !failed ==> store.refused == old(store.refused)
    ensures LoopTold(items, old(world.log), world.log, endings)
    ensures store.healthy && AllGranted(old(world.log), world.log) ==>
              SettledAs(items, endings, hasBackend, hasHandler)
              && (failed <==> exists i :: i in items && Settlement(i, hasBackend, hasHandler) != DeliveredNow)
  {
    hide Ended, Poison, DeliveryTold, Configured, Settlement, SettledAs, Looks, FlushedTo, LoopTold, AllGranted,
         InTimeSoFar;
    ghost var listed, heard := store.rows, world.log;
    endings, delivered, failed := map[], 0, false;
    NothingFlushed(listed);
    NothingSettled(heard, hasBackend, hasHandler);
    for n := 0 to |items|
      invariant FlushedTo(listed, store.rows, endings, delivered)
      invariant endings.Keys == Ids(items[..n])
      invariant !failed ==> forall id :: id in endings ==> endings[id] == DeliveredNow
      invariant !failed ==> store.refused == old(store.refused)
      invariant heard <= world.log && Looks(world.log[|heard|..]) == n && InTimeSoFar(heard, world.log)
      invariant store.healthy && AllGranted(heard, world.log) ==>
                  SettledAs(items[..n], endings, hasBackend, hasHandler)
                  && (failed <==> exists i :: i in items[..n] && Settlement(i, hasBackend, hasHandler) != DeliveredNow)
    {
      ghost var told := world.log;
      var inTime := world.Ask(InTime);
      ghost var asked := world.log;
      if !inTime.Granted? {
        StoppedLooking(items, n, heard, told, inTime, endings);
        RefusedLook(heard, told, inTime);
        failed := true;
        return;
      }
      assert items[n] in items;
      ghost var before, id := store.rows, items[n].id;
      IdsGrow(items, n);
      NotYetFlushed(listed, before, endings, delivered, id);
      var counted, erred, ending := FlushItem(store, world, items[n], hasBackend, hasHandler);
      DeliveryGrew(items[n], asked, world.log, hasBackend, hasHandler, ending);
      InTimeAgain(heard, told, inTime, world.log, items[n], hasBackend, hasHandler, ending);
      OneMoreLook(heard, told, inTime, world.log, items[n], hasBackend, hasHandler, ending);
      FlushedOneMore(listed, before, store.rows, endings, delivered, id, ending);
      GrantedTurn(heard, told, asked, world.log);
      if store.healthy && AllGranted(heard, world.log) {
        SettlementIs(items[n], hasBackend, hasHandler, ending);
        SettledOneMore(items, n, endings, ending, hasBackend, hasHandler);
      }
      endings := endings[id := ending];
      if counted { delivered := delivered + 1; }
      failed := failed || erred;
    }
    assert items[..|items|] == items;
    AllLooked(items, heard, world.log, endings);
  }

  lemma NotYetFlushed(listed: Rows, rows: Rows, endings: map<QueueId, Ending>, delivered: nat, id: QueueId)
    requires FlushedTo(listed, rows, endings, delivered) && id in listed && id !in endings
    ensures id in rows && rows[id] == listed[id]
  {
  }

  lemma NothingSettled(log: Answers, hasBackend: bool, hasHandler: bool)
    ensures Looks(log[|log|..]) == 0 && InTimeSoFar(log, log) && SettledAs([], map[], hasBackend, hasHandler)
  {
  }

  lemma AllLooked(items: seq<Item>, past: Answers, log: Answers, endings: map<QueueId, Ending>)
    requires past <= log && endings.Keys == Ids(items) && Looks(log[|past|..]) == |items| && InTimeSoFar(past, log)
    ensures LoopTold(items, past, log, endings)
  {
  }

  /** When everything was granted so far and in this turn. */
  lemma GrantedTurn(heard: Answers, told: Answers, asked: Answers, log: Answers)
    requires heard <= told <= asked <= log && |asked| == |told| + 1
    ensures AllGranted(heard, log) ==> AllGranted(heard, told) && AllGranted(asked, log)
  {
  }

  /** A refused look shows. */
  lemma RefusedLook(heard: Answers, told: Answers, reply: Reply)
    requires heard <= told && !reply.Granted?
    ensures !AllGranted(heard, told + [Answer(InTime, reply)])
  {
    assert (told + [Answer(InTime, reply)])[|told|].reply == reply;
  }

  lemma SettlementIs(item: Item, hasBackend: bool, hasHandler: bool, ending: Ending)
    requires ending == Poisoned <==> Poison(item.operation, item.payload)
    requires !Poison(item.operation, item.payload) ==>
               ending == if Configured(item.operation, hasBackend, hasHandler) then DeliveredNow else FailedAttempt
    ensures ending == Settlement(item, hasBackend, hasHandler)
  {
  }

  lemma DeliveryGrew(item: Item, past: Answers, log: Answers, hasBackend: bool, hasHandler: bool, ending: Ending)
    requires DeliveryTold(item, past, log, hasBackend, hasHandler, ending)
    ensures past <= log
  {
  }

  lemma StoppedLooking(items: seq<Item>, n: nat, heard: Answers, told: Answers, reply: Reply,
                       endings: map<QueueId, Ending>)
    requires n < |items| && forall i, j :: 0 <= i < j < |items| ==> items[i].id != items[j].id
    requires heard <= told && Looks(told[|heard|..]) == n && endings.Keys == Ids(items[..n]) && !reply.Granted?
    requires InTimeSoFar(heard, told)
    ensures LoopTold(items, heard, told + [Answer(InTime, reply)], endings)
  {
    var log := told + [Answer(InTime, reply)];
    assert log[|heard|..] == told[|heard|..] + [Answer(InTime, reply)];
    LooksAppend(told[|heard|..], [Answer(InTime, reply)]);
    OneLook(reply);
    IdsGrow(items, n);
    assert items[n].id in Ids(items);
  }

  lemma SettledOneMore(items: seq<Item>, n: nat, endings: map<QueueId, Ending>, ending: Ending, hasBackend: bool,
                       hasHandler: bool)
    requires n < |items| && forall i, j :: 0 <= i < j < |items| ==> items[i].id != items[j].id
    requires endings.Keys == Ids(items[..n]) && SettledAs(items[..n], endings, hasBackend, hasHandler)
    requires ending == Settlement(items[n], hasBackend, hasHandler)
    ensures SettledAs(items[..n + 1], endings[items[n].id := ending], hasBackend, hasHandler)
    ensures (exists i :: i in items[..n + 1] && Settlement(i, hasBackend, hasHandler) != DeliveredNow)
            <==> (exists i :: i in items[..n] && Settlement(i, hasBackend, hasHandler) != DeliveredNow)
                 || ending != DeliveredNow
  {
    hide Settlement, Ids;
    assert items[..n + 1] == items[..n] + [items[n]];
    IdsGrow(items, n);
  }

  lemma IdsGrow(items: seq<Item>, n: nat)
    requires n < |items| && forall i, j :: 0 <= i < j < |items| ==> items[i].id != items[j].id
    ensures items[n].id !in Ids(items[..n]) && Ids(items[..n + 1]) == Ids(items[..n]) + {items[n].id}
  {
  }

  /** Syncer.Flush, with no other flusher at work: without an error, everything
      listed was delivered; when the store works and nothing is refused, every
      listed item is settled by what is configured for it. */
  method Flush(store: Store, world: FlushWorld, limit: int, hasBackend: bool, hasHandler: bool)
    returns (delivered: nat, failed: bool, ghost listed: Rows, ghost items: seq<Item>, ghost swept: int, ghost now: int,
        ghost endings: map<QueueId, Ending>)
    modifies store, world
    ensures PreparedFrom(old(store.rows), listed, swept) && FlushedTo(listed, store.rows, endings, delivered)
    ensures DueItems(listed, items, now) && OldestFirst(listed, items, now) && endings.Keys <= Ids(items)
    ensures !failed ==> endings.Keys == Ids(items) && forall id :: id in endings ==> endings[id] == DeliveredNow
    ensures (!failed || store.healthy) && (hasBackend || hasHandler) && |items| < (if limit <= 0 then 1 else limit) ==>
              forall id :: id in listed && Due(listed[id], now) ==> Lists(items, id)
    ensures forall id :: id in endings && endings[id] == LeftClaimed ==> failed
    ensures !failed ==> store.refused == old(store.refused)
    ensures old(RowsGood(store.rows)) ==> RowsGood(store.rows)
    ensures !hasBackend && !hasHandler ==> failed && store.rows == old(store.rows) && world.log == old(world.log)
    ensures store.healthy && (hasBackend || hasHandler) ==> LoopTold(items, old(world.log), world.log, endings)
    ensures store.healthy && (hasBackend || hasHandler) && AllGranted(old(world.log), world.log) ==>
              SettledAs(items, endings, hasBackend, hasHandler)
              && (failed <==> exists i :: i in items && Settlement(i, hasBackend, hasHandler) != DeliveredNow)
  {
    hide RowGood, Ended, Requeue, Recover, Lists, Poison, SettledAs, Settlement, LoopTold;
    ghost var b := store.rows;
    listed, items, swept, now, endings, delivered, failed := b, [], 0, 0, map[], 0, true;
    NothingFlushed(b);
    if !hasBackend && !hasHandler { return; }
    var ok := store.RequeueOversized();
    listed := store.rows;
    NothingFlushed(listed);
    if RowsGood(b) { PreparedKeepsGood(b, listed, swept); }
    if !ok { return; }
    var cutoff: int, clock: int := *, *;
    swept, now := cutoff, clock;
    var due;
    ok, due := store.DueQueue(limit, cutoff, clock);
    listed := store.rows;
    NothingFlushed(listed);
    if RowsGood(b) { PreparedKeepsGood(b, listed, swept); }
    items := due;
    if !ok { return; }
    delivered, failed, endings := FlushListed(store, world, due, hasBackend, hasHandler);
    if RowsGood(b) { FlushKeepsGood(listed, store.rows, endings, delivered); }
  }

  lemma NothingFlushed(rows: Rows)
    ensures FlushedTo(rows, rows, map[], 0)
  {
  }

  // ------------------------------------------------------------------------ runs

  /** The changes to one row over its life: a flush that settles it, repairs,
      and an operator's or migration's requeue. */
  datatype Change = Settled(ending: Ending) | Recovered(now: int) | Requeued | ExplicitRequeue

  ghost predicate Changes(before: Row, after: Row, c: Change) {
    match c
    case Settled(ending) => Ended(ItemOf("", before), before, after, ending)
    case Recovered(now) => after == Recover(before, now)
    case Requeued => after == Requeue(before)
    case ExplicitRequeue => after == OperatorRequeue(before)
  }

  ghost predicate Life(rows: seq<Row>, changes: seq<Change>) {
    && |rows| == |changes| + 1 && rows[0] == Fresh(rows[0].operation, rows[0].payload, rows[0].createdAt)
    && forall i :: 0 <= i < |changes| ==> Changes(rows[i], rows[i + 1], changes[i])
  }

  /** Over any run of flushes the bounds hold, and delivered and buried rows stay
      as they are unless they are requeued. */
  lemma {:induction false} LifeIsGood(rows: seq<Row>, changes: seq<Change>, n: nat)
    requires Life(rows, changes) && n < |rows|
    ensures RowGood(rows[n]) && rows[n].operation == rows[0].operation && rows[n].payload == rows[0].payload
    ensures n < |changes| && rows[n].status in {Delivered, DeadLetter} && changes[n] !in {Requeued, ExplicitRequeue} ==>
              rows[n + 1] == rows[n]
  {
    if n > 0 {
      LifeIsGood(rows, changes, n - 1);
      assert Changes(rows[n - 1], rows[n - 1 + 1], changes[n - 1]);
      ChangeKeepsGood(rows[n - 1], rows[n], changes[n - 1]);
    }
    if n + 1 < |rows| { assert Changes(rows[n], rows[n + 1], changes[n]); }
  }

  lemma ChangeKeepsGood(before: Row, after: Row, c: Change)
    requires RowGood(before) && Changes(before, after, c)
    ensures RowGood(after) && after.operation == before.operation && after.payload == before.payload
    ensures before.claims <= after.claims && before.lost <= after.lost
    ensures before.requeues <= after.requeues <= before.requeues + 1
    ensures before.requeues < after.requeues ==> before.status == DeadLetter && after == StartOver(before)
    ensures before.requeues < after.requeues && c != ExplicitRequeue ==>
              before.operation == MemoryCapture && before.oversized
  {
    if before.status == DeadLetter { StartOverKeepsGood(before); }
    if c.Settled? { EndingKeepsGood("", before, after, c.ending); }
  }

  lemma StartOverKeepsGood(r: Row)
    requires RowGood(r) && r.status == DeadLetter
    ensures RowGood(StartOver(r))
  {
    assert Allowed(r) * (r.requeues + 1) == Allowed(r) * r.requeues + Allowed(r);
  }

  lemma {:induction false} CountersGrow(rows: seq<Row>, changes: seq<Change>, i: nat, n: nat)
    requires Life(rows, changes) && i <= n < |rows|
    ensures rows[i].claims <= rows[n].claims && rows[i].lost <= rows[n].lost && rows[i].requeues <= rows[n].requeues
  {
    if i < n {
      CountersGrow(rows, changes, i, n - 1);
      LifeIsGood(rows, changes, n - 1);
      assert Changes(rows[n - 1], rows[n - 1 + 1], changes[n - 1]);
      ChangeKeepsGood(rows[n - 1], rows[n], changes[n - 1]);
    }
  }

  ghost predicate RequeuedAt(rows: seq<Row>, i: nat) { i + 1 < |rows| && rows[i].requeues < rows[i + 1].requeues }

  ghost predicate TriedAt(rows: seq<Row>, j: nat) { j + 1 < |rows| && rows[j].claims < rows[j + 1].claims }

  /** Some try follows some requeue. */
  ghost predicate TriedAgain(rows: seq<Row>) { exists i, j :: i < j && RequeuedAt(rows, i) && TriedAt(rows, j) }

  /** The first requeue of a row, after exactly its allowed tries. */
  lemma {:induction false} FirstRequeue(rows: seq<Row>, changes: seq<Change>, n: nat) returns (i: nat)
    requires Life(rows, changes) && n < |rows| && rows[n].requeues > 0
    ensures i < n && RequeuedAt(rows, i) && rows[i].status == DeadLetter && rows[i + 1] == StartOver(rows[i])
    ensures rows[i].claims == Allowed(rows[0]) + rows[i].lost
    ensures changes[i] != ExplicitRequeue ==> rows[i].operation == MemoryCapture && rows[i].oversized
  {
    hide RowGood, Changes;
    i := n - 1;
    LifeIsGood(rows, changes, i);
    ChangeKeepsGood(rows[i], rows[i + 1], changes[i]);
    if rows[i].requeues > 0 {
      i := FirstRequeue(rows, changes, i);
    } else {
      AttemptsAreBounded(rows[i]);
    }
  }

  lemma {:induction false} SomeTry(rows: seq<Row>, from: nat, n: nat) returns (j: nat)
    requires from <= n < |rows| && rows[from].claims < rows[n].claims
    ensures from <= j && TriedAt(rows, j)
    decreases n
  {
    if rows[n - 1].claims < rows[n].claims { j := n - 1; } else { j := SomeTry(rows, from, n - 1); }
  }

  /** A row that lost no claim is tried more often than its policy allows, over
      any run of flushes, exactly when it is tried after a requeue. */
  lemma OverrunExactly(rows: seq<Row>, changes: seq<Change>)
    requires Life(rows, changes) && rows[|rows| - 1].lost == 0
    ensures rows[|rows| - 1].claims > Allowed(rows[0]) <==> TriedAgain(rows)
  {
    hide RowGood, Changes, TriedAgain;
    var last := |rows| - 1;
    LifeIsGood(rows, changes, last);
    if TriedAgain(rows) {
      TriedAgainOverruns(rows, changes);
    } else if rows[last].claims > Allowed(rows[0]) {
      WithinPolicyExactly(rows[last]);
      var i := FirstRequeue(rows, changes, last);
      CountersGrow(rows, changes, i, last);
      var j := SomeTry(rows, i + 1, last);
      NotTriedAgain(rows, i, j);
    }
  }

  lemma NotTriedAgain(rows: seq<Row>, i: nat, j: nat)
    requires !TriedAgain(rows) && i < j
    ensures !(RequeuedAt(rows, i) && TriedAt(rows, j))
  {
  }

  lemma TriedAgainOverruns(rows: seq<Row>, changes: seq<Change>)
    requires Life(rows, changes) && TriedAgain(rows)
    ensures rows[|rows| - 1].claims > Allowed(rows[0])
  {
    hide RowGood, Changes;
    var i: nat, j: nat :| i < j && RequeuedAt(rows, i) && TriedAt(rows, j);
    LifeIsGood(rows, changes, i);
    ChangeKeepsGood(rows[i], rows[i + 1], changes[i]);
    AttemptsAreBounded(rows[i]);
    assert Allowed(rows[i]) * (rows[i].requeues + 1) >= Allowed(rows[i]);
    CountersGrow(rows, changes, i + 1, j);
    CountersGrow(rows, changes, j + 1, |rows| - 1);
  }

  /** Without an operator only a capture that was buried for its size starts over. */
  lemma OnlyOversizedStartOver(rows: seq<Row>, changes: seq<Change>)
    requires Life(rows, changes) && ExplicitRequeue !in changes && rows[|rows| - 1].requeues > 0
    ensures exists i: nat :: i < |rows| - 1 && rows[i].operation == MemoryCapture && rows[i].status == DeadLetter
              && rows[i].oversized
  {
    hide RowGood, Changes;
    var i := FirstRequeue(rows, changes, |rows| - 1);
  }

  // A capture the provider finds too big never comes to rest: each flush that
  // finds it buried starts it over.

  /** A failed attempt whose error is the size limit. */
  ghost function Failing(r: Row): Row {
    if r.attempts + 1 >= PolicyFor(r.operation).maxAttempts then Bury(Claim(r, 0), true)
    else Retry(Claim(r, 0), RetryDelay(r.attempts, PolicyFor(r.operation), 0), true)
  }

  lemma FailingChanges(r: Row)
    requires r.status == Pending && !Poison(r.operation, r.payload)
    ensures Changes(r, Failing(r), Settled(FailedAttempt))
  {
    assert !LastAttempt(ItemOf("", r)) ==> RetriedAt(ItemOf("", r), Claim(r, 0), Failing(r), 0);
  }

  lemma LifeGoesOn(rows: seq<Row>, changes: seq<Change>, next: Row, c: Change)
    requires Life(rows, changes) && Changes(rows[|rows| - 1], next, c)
    ensures Life(rows + [next], changes + [c])
  {
    hide Changes;
    forall i | 0 <= i < |changes| + 1 ensures Changes((rows + [next])[i], (rows + [next])[i + 1], (changes + [c])[i]) {
      if i < |changes| { assert Changes(rows[i], rows[i + 1], changes[i]); }
    }
  }

  ghost predicate Unattended(changes: seq<Change>) { forall c :: c in changes ==>
      c == Settled(FailedAttempt) || c == Requeued }

  /** Failing until buried. */
  lemma {:induction false} FailsUntilBuried(rows: seq<Row>, changes: seq<Change>)
    returns (longer: seq<Row>, more: seq<Change>)
    requires Life(rows, changes) && Unattended(changes)
    requires var r := rows[|rows| - 1];
              r.operation == MemoryCapture && r.payload == Ours && r.status == Pending && r.attempts < 5
    ensures Life(longer, more) && Unattended(more) && longer[0] == rows[0]
    ensures var r, after := rows[|rows| - 1], longer[|longer| - 1];
            && after.status == DeadLetter && after.oversized && after.operation == r.operation
                && after.payload == r.payload
            && after.requeues == r.requeues && after.lost == r.lost && after.claims == r.claims + 5 - r.attempts
    decreases 5 - rows[|rows| - 1].attempts
  {
    var r := rows[|rows| - 1];
    hide Life, Changes;
    FailingChanges(r);
    LifeGoesOn(rows, changes, Failing(r), Settled(FailedAttempt));
    longer, more := rows + [Failing(r)], changes + [Settled(FailedAttempt)];
    if Failing(r).status == Pending { longer, more := FailsUntilBuried(longer, more); }
  }

  /** Without an operator, a second flusher or a lost claim, an oversized capture
      is tried as often as anyone likes under a policy of five. */
  lemma {:induction false} OversizedIsTriedForever(requeues: nat) returns (rows: seq<Row>, changes: seq<Change>)
    ensures Life(rows, changes) && rows[0] == Fresh(MemoryCapture, Ours, 0) && Unattended(changes)
    ensures var r := rows[|rows| - 1];
            && r.status == DeadLetter && r.oversized && r.operation == MemoryCapture && r.payload == Ours
            && r.requeues == requeues && r.lost == 0 && r.claims == 5 * (requeues + 1)
  {
    if requeues == 0 {
      rows, changes := [Fresh(MemoryCapture, Ours, 0)], [];
    } else {
      rows, changes := OversizedIsTriedForever(requeues - 1);
      var buried := rows[|rows| - 1];
      LifeGoesOn(rows, changes, Requeue(buried), Requeued);
      rows, changes := rows + [Requeue(buried)], changes + [Requeued];
    }
    rows, changes := FailsUntilBuried(rows, changes);
  }

  // -------------------------------------------------------- concurrent flushers

  /** With another flusher between listing and claiming, the snapshot's count may
      be behind the row's.  A failed attempt keeps the row within its policy
      exactly when the two agree on whether it is the last one. */
  lemma StaleSnapshotExactly(item: Item, row: Row, at: int, after: Row)
    requires RowGood(row) && row.status == Pending && !Poison(row.operation, row.payload)
    requires item.operation == row.operation && item.attempts <= row.attempts
    requires Failed(item, Claim(row, at), after)
    ensures RowGood(after) <==> (LastAttempt(item) <==> row.attempts + 1 == PolicyFor(row.operation).maxAttempts)
  {
  }

  /** A flusher that lists an item, then sees it fail three times elsewhere before
      it claims it itself: after four recorded failures the item is pending and
      will be tried a fifth time, though its policy allows four. */
  lemma TwoFlushersOverrun() returns (rows: seq<Row>, item: Item)
    ensures |rows| == 5 && rows[0] == Fresh(MetadataRepair, Ours, 0) && item == ItemOf("q", rows[0])
    ensures forall i :: 0 <= i < 3 ==> Ended(ItemOf("q", rows[i]), rows[i], rows[i + 1], FailedAttempt)
    ensures Ended(item, rows[3], rows[4], FailedAttempt)
    ensures rows[4].status == Pending && rows[4].attempts == PolicyFor(MetadataRepair).maxAttempts && !RowGood(rows[4])
  {
    var r0 := Fresh(MetadataRepair, Ours, 0);
    var p := PolicyFor(MetadataRepair);
    item := ItemOf("q", r0);
    var r1 := Retry(Claim(r0, 0), RetryDelay(0, p, 0), false);
    var r2 := Retry(Claim(r1, 0), RetryDelay(1, p, 0), false);
    var r3 := Retry(Claim(r2, 0), RetryDelay(2, p, 0), false);
    var r4 := Retry(Claim(r3, 0), RetryDelay(0, p, 0), false);
    assert RetriedAt(item, Claim(r0, 0), r1, 0) && RetriedAt(ItemOf("q", r1), Claim(r1, 0), r2, 0);
    assert RetriedAt(ItemOf("q", r2), Claim(r2, 0), r3, 0) && RetriedAt(item, Claim(r3, 0), r4, 0);
    rows := [r0, r1, r2, r3, r4];
  }
}

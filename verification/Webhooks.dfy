/**
 Webhook fan-out and its retry loop. What the network answers to attempt n of a delivery is a
 parameter, so the results hold for every behaviour of the receivers.
 */
module Webhooks {
  import opened Outcomes

  type Id = nat

  datatype Status = Pending | Delivered | Failed

  datatype Delivery = Delivery(
    id: Id, subscriptionId: string, organizationId: string, eventType: string, payload: string, status: Status,
    attempts: int, lastError: Option<string>, responseStatus: Option<int>, deliveredAt: Option<int>)

  /** An HTTP status, or the message of whatever `fetch` threw (timeouts included). */
  datatype Response = Http(status: nat) | Thrown(message: string)

  predicate IsOk(r: Response) {
    r.Http? && 200 <= r.status <= 299
  }

  datatype NotFound = NotFound

  datatype Subscription = Subscription(id: string, url: string, secret: string)

  type Network = (Id, int) -> Response
  type Clock = (Id, int) -> int

  function NewDelivery(id: Id, sub: Subscription, organizationId: string, eventType: string, payload: string)
    : Delivery
  {
    Delivery(id, sub.id, organizationId, eventType, payload, Pending, 0, None, None, None)
  }

  function AfterOk(row: Delivery, n: int, r: Response, now: int): Delivery
    requires r.Http?
  {
    row.(status := Delivered, attempts := n, responseStatus := Some(r.status), deliveredAt := Some(now),
         lastError := None)
  }

  const DIGITS := "0123456789"

  function Decimal(n: nat): string {
    if n < 10 then [DIGITS[n]] else Decimal(n / 10) + [DIGITS[n % 10]]
  }

  function ErrorText(r: Response): string {
    match r
    case Http(status) => "HTTP " + Decimal(status)
    case Thrown(message) => message
  }

  function AfterFailure(row: Delivery, n: int, r: Response): Delivery {
    row.(attempts := n, lastError := Some(ErrorText(r)), responseStatus := if r.Http? then Some(r.status) else None)
  }

  function Pow2(n: nat): nat {
    if n == 0 then 1 else 2 * Pow2(n - 1)
  }

  // ----- What a delivery comes to -----

  /** The first successful attempt after the a-th, or max if there is none. */
  function LastAttempt(id: Id, a: int, max: int, network: Network): int
    decreases max - a
  {
    if a >= max then a
    else if IsOk(network(id, a + 1)) then a + 1
    else LastAttempt(id, a + 1, max, network)
  }

  /** The row once the retry loop, entered after a attempts, has run its course. */
  function Settled(row: Delivery, a: int, max: int, network: Network, clock: Clock): Delivery
    decreases max - a
  {
    if a >= max then row.(status := Failed)
    else
      var r := network(row.id, a + 1);
      if IsOk(r) then AfterOk(row, a + 1, r, clock(row.id, a + 1))
      else Settled(AfterFailure(row, a + 1, r), a + 1, max, network, clock)
  }

  class DeliveryRepository {
    var rows: map<Id, Delivery>
    var nextId: Id

    ghost predicate Valid()
      reads this
    {
      forall id :: id in rows ==> id < nextId && rows[id].id == id
    }

    constructor ()
      ensures Valid() && rows == map[]
    {
      rows, nextId := map[], 0;
    }

    method Create(sub: Subscription, organizationId: string, eventType: string, payload: string) returns (row: Delivery)
      requires Valid()
      modifies this
      ensures Valid() && nextId == old(nextId) + 1
      ensures row == NewDelivery(old(nextId), sub, organizationId, eventType, payload)
      ensures row.id == old(nextId) && row.status == Pending && row.attempts == 0
      ensures rows == old(rows)[old(nextId) := row]
    {
      row := NewDelivery(nextId, sub, organizationId, eventType, payload);
      rows := rows[nextId := row];
      nextId := nextId + 1;
    }
  }

  /** Doubling pauses: after attempts a + 1 .. n, all of them followed by a sleep. */
  function Sleeps(base: nat, a: int, n: int): nat
    requires a >= 0
    decreases n - a
  {
    if n <= a then 0 else Sleeps(base, a, n - 1) + base * Pow2(n - 1)
  }

  class WebhookDispatcher {
    const deliveries: DeliveryRepository
    const maxAttempts: int
    const backoffBaseMs: nat

    constructor (deliveries: DeliveryRepository, maxAttempts: int, backoffBaseMs: nat)
      ensures this.deliveries == deliveries && this.maxAttempts == maxAttempts && this.backoffBaseMs == backoffBaseMs
    {
      this.deliveries, this.maxAttempts, this.backoffBaseMs := deliveries, maxAttempts, backoffBaseMs;
    }

    /** Returns also the number of HTTP calls made and the milliseconds slept. */
    method Attempt(delivery: Delivery, network: Network, clock: Clock)
      returns (final: Result<Delivery, NotFound>, calls: nat, slept: nat)
      requires deliveries.Valid()
      requires delivery.attempts >= 0
      modifies deliveries`rows
      ensures deliveries.Valid()
      ensures final.Ok? <==> delivery.id in old(deliveries.rows)
      ensures final.Ok? ==>
        && final.value == Settled(old(deliveries.rows)[delivery.id], delivery.attempts, maxAttempts, network, clock)
        && deliveries.rows == old(deliveries.rows)[delivery.id := final.value]
        && calls == LastAttempt(delivery.id, delivery.attempts, maxAttempts, network) - delivery.attempts
        && slept == Sleeps(backoffBaseMs, delivery.attempts, delivery.attempts + calls - 1)
      ensures final.Err? ==> deliveries.rows == old(deliveries.rows) && slept == 0
      ensures final.Err? ==> calls == if delivery.attempts < maxAttempts then 1 else 0
    {
      calls, slept := 0, 0;
      var attempts := delivery.attempts;
      while attempts < maxAttempts
        invariant deliveries.Valid()
        invariant attempts == delivery.attempts + calls
        invariant calls > 0 ==> attempts < maxAttempts
        invariant delivery.id !in old(deliveries.rows) ==> calls == 0 && deliveries.rows == old(deliveries.rows)
        invariant slept == Sleeps(backoffBaseMs, delivery.attempts, attempts)
        invariant delivery.id in old(deliveries.rows) ==>
          && delivery.id in deliveries.rows
          && deliveries.rows == old(deliveries.rows)[delivery.id := deliveries.rows[delivery.id]]
          && Settled(deliveries.rows[delivery.id], attempts, maxAttempts, network, clock)
             == Settled(old(deliveries.rows)[delivery.id], delivery.attempts, maxAttempts, network, clock)
          && LastAttempt(delivery.id, attempts, maxAttempts, network)
             == LastAttempt(delivery.id, delivery.attempts, maxAttempts, network)
        decreases maxAttempts - attempts
      {
        var attemptNumber := attempts + 1;
        var response := network(delivery.id, attemptNumber);
        calls := calls + 1;
        if delivery.id !in deliveries.rows {
          return Err(NotFound), calls, slept;
        }
        var row := deliveries.rows[delivery.id];
        if IsOk(response) {
          row := AfterOk(row, attemptNumber, response, clock(delivery.id, attemptNumber));
          deliveries.rows := deliveries.rows[delivery.id := row];
          return Ok(row), calls, slept;
        }
        deliveries.rows := deliveries.rows[delivery.id := AfterFailure(row, attemptNumber, response)];
        attempts := attemptNumber;
        if attemptNumber >= maxAttempts {
          break;
        }
        slept := slept + backoffBaseMs * Pow2(attemptNumber - 1);
      }
      if delivery.id !in deliveries.rows {
        return Err(NotFound), calls, slept;
      }
      var row := deliveries.rows[delivery.id].(status := Failed);
      deliveries.rows := deliveries.rows[delivery.id := row];
      return Ok(row), calls, slept;
    }

    /** One new delivery for each subscription, each attempted to its end before the next is created. */
    method Publish(subscriptions: seq<Subscription>, organizationId: string, eventType: string, payload: string,
                   network: Network, clock: Clock)
      returns (created: seq<Delivery>)
      requires deliveries.Valid()
      modifies deliveries
      ensures deliveries.Valid()
      ensures |created| == |subscriptions|
      ensures forall k :: 0 <= k < |subscriptions| ==>
        var id := old(deliveries.nextId) + k;
        created[k] == Settled(NewDelivery(id, subscriptions[k], organizationId, eventType, payload),
                              0, maxAttempts, network, clock)
      ensures forall id :: id in deliveries.rows <==>
                id in old(deliveries.rows) || old(deliveries.nextId) <= id < old(deliveries.nextId) + |subscriptions|
      ensures forall k :: 0 <= k < |subscriptions| ==> deliveries.rows[old(deliveries.nextId) + k] == created[k]
      ensures forall id :: id in old(deliveries.rows) ==> deliveries.rows[id] == old(deliveries.rows)[id]
    {
      created := [];
      for k := 0 to |subscriptions|
        invariant deliveries.Valid() && |created| == k && deliveries.nextId == old(deliveries.nextId) + k
        invariant forall j :: 0 <= j < k ==>
          var id := old(deliveries.nextId) + j;
          created[j] == Settled(NewDelivery(id, subscriptions[j], organizationId, eventType, payload),
                                0, maxAttempts, network, clock)
        invariant forall id :: id in deliveries.rows <==>
          id in old(deliveries.rows) || old(deliveries.nextId) <= id < deliveries.nextId
        invariant forall j :: 0 <= j < k ==> deliveries.rows[old(deliveries.nextId) + j] == created[j]
        invariant forall id :: id in old(deliveries.rows) ==> deliveries.rows[id] == old(deliveries.rows)[id]
      {
        var delivery := deliveries.Create(subscriptions[k], organizationId, eventType, payload);
        var final, _, _ := Attempt(delivery, network, clock);
        created := created + [final.value];
      }
    }
  }

  // ----- What publishing comes to -----

  /** An answer with a status from 200 to 299. */
  predicate Accepts(network: Network, id: Id, n: int) {
    network(id, n).Http? && 200 <= network(id, n).status <= 299
  }

  /**
   A new delivery ends as delivered or failed. It is delivered exactly when some attempt within the
   limit succeeds; the attempts it records are then those up to the first success, and all of them
   otherwise. The recorded answer and error are those of the last attempt.
   */
  lemma {:induction false} SettledMeaning(row: Delivery, a: int, max: int, network: Network, clock: Clock)
    requires a <= max
    ensures var d := Settled(row, a, max, network, clock);
            var last := LastAttempt(row.id, a, max, network);
            && a <= last <= max
            && (forall n :: a < n < last ==> !Accepts(network, row.id, n))
            && (d.status == Delivered <==> a < last && Accepts(network, row.id, last))
            && (d.status == Failed <==> !(a < last && Accepts(network, row.id, last)))
            && (d.status == Failed ==> last == max)
            && (a < last ==> d.attempts == last)
            && (a < last ==> var r := network(row.id, last);
                  d.responseStatus == if r.Http? then Some(r.status) else None)
            && (d.status == Delivered ==> d.lastError == None && d.deliveredAt == Some(clock(row.id, last)))
            && (d.status == Failed ==> d.deliveredAt == row.deliveredAt)
            && (d.status == Failed && a < last ==> d.lastError == Some(ErrorText(network(row.id, last))))
            && d.id == row.id && d.subscriptionId == row.subscriptionId && d.organizationId == row.organizationId
            && d.eventType == row.eventType && d.payload == row.payload
    decreases max - a
  {
    if a < max && !IsOk(network(row.id, a + 1)) {
      SettledMeaning(AfterFailure(row, a + 1, network(row.id, a + 1)), a + 1, max, network, clock);
    }
  }

  lemma {:induction false} LastAttemptGrows(id: Id, a: int, max: int, network: Network)
    ensures LastAttempt(id, a, max, network) >= a
    decreases max - a
  {
    if a < max && !IsOk(network(id, a + 1)) {
      LastAttemptGrows(id, a + 1, max, network);
    }
  }

  lemma FirstAttemptRuns(id: Id, max: int, network: Network)
    requires max >= 1
    ensures LastAttempt(id, 0, max, network) >= 1
  {
    if !IsOk(network(id, 1)) {
      LastAttemptGrows(id, 1, max, network);
    }
  }

  /** `publish` with a positive limit: delivered exactly when one of the first maxAttempts answers is 200 to 299. */
  lemma PublishSettles(id: Id, sub: Subscription, org: string, eventType: string, payload: string, max: int,
                       network: Network, clock: Clock)
    requires max >= 1
    ensures var d := Settled(NewDelivery(id, sub, org, eventType, payload), 0, max, network, clock);
            && d.status != Pending && 1 <= d.attempts <= max
            && (d.status == Delivered <==>
                  exists n :: 1 <= n <= max && network(id, n).Http? && 200 <= network(id, n).status <= 299)
            && (d.status == Failed ==> d.attempts == max && d.deliveredAt == None)
            && (forall n :: 1 <= n < d.attempts ==> !Accepts(network, id, n))
            && d.attempts == LastAttempt(id, 0, max, network)
            && d.id == id && d.subscriptionId == sub.id && d.organizationId == org
            && d.eventType == eventType && d.payload == payload
  {
    var row := NewDelivery(id, sub, org, eventType, payload);
    SettledMeaning(row, 0, max, network, clock);
    FirstAttemptRuns(id, max, network);
    if n :| 1 <= n <= max && network(id, n).Http? && 200 <= network(id, n).status <= 299 {
      assert Accepts(network, id, n);
    }
  }

  /** A status code is written as its three digits. */
  lemma ThreeDigits(status: nat)
    requires 100 <= status <= 999
    ensures Decimal(status) == [DIGITS[status / 100], DIGITS[status / 10 % 10], DIGITS[status % 10]]
  {
    assert Decimal(status / 10) == Decimal(status / 100) + [DIGITS[status / 10 % 10]];
  }

  /** A receiver that always answers 503 is tried to the limit, and the delivery fails. */
  lemma AlwaysUnavailable(id: Id, sub: Subscription, org: string, eventType: string, payload: string, max: int,
                          clock: Clock)
    requires max >= 1
    ensures var d := Settled(NewDelivery(id, sub, org, eventType, payload), 0, max, (i, n) => Http(503), clock);
            && d.status == Failed && d.attempts == max && d.responseStatus == Some(503)
            && d.lastError == Some("HTTP " + "503")
  {
    var network: Network := (i, n) => Http(503);
    PublishSettles(id, sub, org, eventType, payload, max, network, clock);
    SettledMeaning(NewDelivery(id, sub, org, eventType, payload), 0, max, network, clock);
    ThreeDigits(503);
    assert Decimal(503) == "503";
  }

  /**
   Trying a delivery again keeps it delivered exactly when attempts are left and one of them is answered with a
   status from 200 to 299: an already delivered row with no attempts left is marked failed without a call.
   */
  lemma RetryOutcome(row: Delivery, max: int, network: Network, clock: Clock)
    ensures Settled(row, row.attempts, max, network, clock).status == Delivered <==>
      exists n :: row.attempts < n <= max && network(row.id, n).Http? && 200 <= network(row.id, n).status <= 299
  {
    if row.attempts < max {
      SettledMeaning(row, row.attempts, max, network, clock);
      if n :| row.attempts < n <= max && network(row.id, n).Http? && 200 <= network(row.id, n).status <= 299 {
        assert Accepts(network, row.id, n);
      }
    }
  }

  lemma Distribute(b: int, x: int, y: int)
    ensures b * (x - y) + b * x == b * (2 * x - y)
  {}

  /** A new delivery that takes k attempts sleeps base * (2^(k-1) - 1) milliseconds in all. */
  lemma {:induction false} TotalSleep(base: nat, a: nat, n: nat)
    requires a <= n
    ensures Sleeps(base, a, n) == base * (Pow2(n) - Pow2(a))
    ensures Pow2(0) == 1 && (n > 0 ==> Pow2(n) == 2 * Pow2(n - 1))
    decreases n
  {
    if a < n {
      TotalSleep(base, a, n - 1);
      Distribute(base, Pow2(n - 1), Pow2(a));
    }
  }
}

/**
 * The outbox of webhook deliveries: `emitEvent` fans an event out into one
 * pending row per matching subscription, and `processWebhookBatch` leases the
 * due rows, attempts each one and records the outcome with its retry schedule.
 */
module WebhookEngine {
  import opened Wrappers
  import opened Tables
  import opened WebhookTypes
  import opened Backoff
  import opened DeliverySelection
  import opened PharmacyTransform

  /** The subscription filter of `emitEvent`: same tenant, enabled, and listening for the type. */
  predicate Matches(sub: Subscription, tenantId: string, eventType: string) {
    sub.tenantId == tenantId && sub.enabled && eventType in sub.eventTypes
  }

  /** The subscriptions among the first `n` that receive an event, in table order. */
  function MatchingSubs(subs: seq<Subscription>, tenantId: string, eventType: string, n: nat): (r: seq<Subscription>)
    requires n <= |subs|
    ensures forall s :: s in r <==> s in subs[..n] && Matches(s, tenantId, eventType)
  {
    if n == 0 then []
    else
      assert subs[..n] == subs[..n - 1] + [subs[n - 1]];
      var rest := MatchingSubs(subs, tenantId, eventType, n - 1);
      if Matches(subs[n - 1], tenantId, eventType) then rest + [subs[n - 1]] else rest
  }

  /** The two `randomUUID()` values drawn for one subscription. */
  datatype FreshIds = FreshIds(eventId: string, deliveryId: string)

  /** Delivery ids that differ from each other and from every row already stored. */
  predicate FreshFor(ids: seq<FreshIds>, rows: map<string, Delivery>) {
    && (forall i, j :: 0 <= i < j < |ids| ==> ids[i].deliveryId != ids[j].deliveryId)
    && (forall k :: 0 <= k < |ids| ==> ids[k].deliveryId !in rows)
  }

  /** The row inserted for one subscription: pending, never attempted, due at once. */
  function NewDelivery(sub: Subscription, tenantId: string, eventType: string, data: EventData, now: int, drawn: FreshIds): (d: Delivery)
    ensures IsDue(d, now)
    ensures d.attemptCount == 0 && d.lastError.None? && d.lastAttemptAt.None?
    ensures d.deliveryId == drawn.deliveryId && d.eventId == drawn.eventId && d.subscriptionId == sub.subscriptionId
    ensures d.payload == Envelope(drawn.eventId, eventType, now, tenantId, data)
    ensures d.tenantId == tenantId && d.eventType == eventType
  {
    Delivery(drawn.deliveryId, tenantId, sub.subscriptionId, drawn.eventId, eventType,
      Envelope(drawn.eventId, eventType, now, tenantId, data), Pending, 0, None, None, now, None)
  }

  /**
   * The rows `emitEvent` inserts for the first `n` subscriptions: one per
   * matching subscription, in subscription order; `ids[k]` are the
   * identifiers drawn for `subs[k]`.
   */
  function EmitRows(subs: seq<Subscription>, tenantId: string, eventType: string, data: EventData, now: int, ids: seq<FreshIds>, n: nat): (ds: seq<Delivery>)
    requires |ids| == |subs| && n <= |subs|
    ensures |ds| <= n
    ensures forall d :: d in ds ==> FreshIds(d.eventId, d.deliveryId) in ids[..n]
  {
    if n == 0 then []
    else
      var rest := EmitRows(subs, tenantId, eventType, data, now, ids, n - 1);
      assert ids[..n] == ids[..n - 1] + [ids[n - 1]];
      if Matches(subs[n - 1], tenantId, eventType) then rest + [NewDelivery(subs[n - 1], tenantId, eventType, data, now, ids[n - 1])]
      else rest
  }

  /** Exactly one row per matching subscription, in the same order. */
  lemma {:induction false} EmitOnePerMatch(subs: seq<Subscription>, tenantId: string, eventType: string, data: EventData, now: int, ids: seq<FreshIds>, n: nat)
    requires |ids| == |subs| && n <= |subs|
    ensures var ds := EmitRows(subs, tenantId, eventType, data, now, ids, n);
      var ms := MatchingSubs(subs, tenantId, eventType, n);
      && |ds| == |ms|
      && forall k :: 0 <= k < |ds| ==> ds[k].subscriptionId == ms[k].subscriptionId
  {
    if n > 0 {
      EmitOnePerMatch(subs, tenantId, eventType, data, now, ids, n - 1);
    }
  }

  /** Every inserted row is pending, unattempted, unleased and already due. */
  lemma {:induction false} EmitRowsArePending(subs: seq<Subscription>, tenantId: string, eventType: string, data: EventData, now: int, ids: seq<FreshIds>, n: nat)
    requires |ids| == |subs| && n <= |subs|
    ensures forall d :: d in EmitRows(subs, tenantId, eventType, data, now, ids, n) ==>
      && IsDue(d, now) && d.nextAttemptAt == now
      && d.attemptCount == 0 && d.lastError.None? && d.lockedUntil.None?
      && d.tenantId == tenantId && d.eventType == eventType
      && d.payload == Envelope(d.eventId, eventType, now, tenantId, data)
  {
    if n > 0 {
      EmitRowsArePending(subs, tenantId, eventType, data, now, ids, n - 1);
    }
  }

  predicate DistinctEventIds(ids: seq<FreshIds>) {
    forall i, j :: 0 <= i < j < |ids| ==> ids[i].eventId != ids[j].eventId
  }

  predicate DistinctEvents(ds: seq<Delivery>) {
    forall i, j :: 0 <= i < j < |ds| ==> ds[i].eventId != ds[j].eventId
  }

  /**
   * Each subscription's row carries its own `event_id`: one event fanned out
   * to several subscribers yields as many different event ids.
   */
  lemma {:induction false} EmitEventIdsDistinct(subs: seq<Subscription>, tenantId: string, eventType: string, data: EventData, now: int, ids: seq<FreshIds>, n: nat)
    requires |ids| == |subs| && n <= |subs| && DistinctEventIds(ids)
    ensures DistinctEvents(EmitRows(subs, tenantId, eventType, data, now, ids, n))
  {
    if n > 0 {
      var rest := EmitRows(subs, tenantId, eventType, data, now, ids, n - 1);
      EmitEventIdsDistinct(subs, tenantId, eventType, data, now, ids, n - 1);
      forall d | d in rest ensures d.eventId != ids[n - 1].eventId {
        var k :| 0 <= k < n - 1 && ids[..n - 1][k] == FreshIds(d.eventId, d.deliveryId);
        assert ids[k] == ids[..n - 1][k];
      }
      if Matches(subs[n - 1], tenantId, eventType) {
        var ds := rest + [NewDelivery(subs[n - 1], tenantId, eventType, data, now, ids[n - 1])];
        forall i, j | 0 <= i < j < |ds| ensures ds[i].eventId != ds[j].eventId {
          assert ds[i] == rest[i] && ds[i] in rest;
          if j < |rest| {
            assert ds[j] == rest[j];
          } else {
            assert ds[j].eventId == ids[n - 1].eventId;
          }
        }
        assert EmitRows(subs, tenantId, eventType, data, now, ids, n) == ds;
      }
    }
  }

  /** The table after inserting `ds` one by one. */
  function InsertAll(rows: map<string, Delivery>, ds: seq<Delivery>): map<string, Delivery>
    decreases |ds|
  {
    if ds == [] then rows
    else
      var n := |ds| - 1;
      InsertAll(rows, ds[..n])[ds[n].deliveryId := ds[n]]
  }

  /** The delivery ids of `ds`, in order. */
  function IdsOf(ds: seq<Delivery>): (r: seq<string>)
    ensures |r| == |ds| && forall k :: 0 <= k < |ds| ==> r[k] == ds[k].deliveryId
    decreases |ds|
  {
    if ds == [] then [] else IdsOf(ds[..|ds| - 1]) + [ds[|ds| - 1].deliveryId]
  }

  /** The lease: `locked_until` set to `now + lockSeconds` when the row is pending and unleased. */
  function Lease(d: Delivery, now: int, cfg: Config): (r: Delivery)
    ensures IsDue(d, now) ==> r == d.(lockedUntil := Some(now + cfg.lockSeconds))
    // the UPDATE does not test `next_attempt_at`: a pending row with no live lease is leased even when not yet due
    ensures d.status == Pending && (d.lockedUntil.None? || d.lockedUntil.value < now) ==>
      r == d.(lockedUntil := Some(now + cfg.lockSeconds))
    ensures !(d.status == Pending && (d.lockedUntil.None? || d.lockedUntil.value < now)) ==> r == d
  {
    if d.status == Pending && (d.lockedUntil.None? || d.lockedUntil.value < now) then d.(lockedUntil := Some(now + cfg.lockSeconds))
    else d
  }

  /** The JOIN of a delivery with `webhook_subscriptions` on `subscription_id`. */
  function FindSubscription(subs: seq<Subscription>, subscriptionId: string): (r: Option<Subscription>)
    ensures r.Some? ==> r.value in subs && r.value.subscriptionId == subscriptionId
    ensures r.None? ==> forall s :: s in subs ==> s.subscriptionId != subscriptionId
  {
    if subs == [] then None
    else if subs[0].subscriptionId == subscriptionId then Some(subs[0])
    else FindSubscription(subs[1..], subscriptionId)
  }

  /**
   * The final UPDATE of one attempt. A failure is retried while attempts
   * remain, after the delay of attempt number `attempt_count + 1`; otherwise
   * the row becomes failed. The lease is released either way.
   */
  function RecordOutcome(d: Delivery, a: Attempt, now: int, cfg: Config): (r: Delivery)
    ensures r.deliveryId == d.deliveryId && r.tenantId == d.tenantId && r.subscriptionId == d.subscriptionId
    ensures r.eventId == d.eventId && r.eventType == d.eventType && r.payload == d.payload
    ensures r.attemptCount == d.attemptCount + 1 && r.lastAttemptAt == Some(now) && r.lockedUntil.None?
    ensures r.status == Sent <==> a.ok
    ensures r.status == Pending <==> !a.ok && r.attemptCount < cfg.maxAttempts
    ensures r.status == Failed <==> !a.ok && r.attemptCount >= cfg.maxAttempts
    ensures r.lastError == (if a.ok then None else a.error)
    ensures r.status == Pending ==> r.nextAttemptAt == now + ComputeNextAttempt(r.attemptCount) >= now + 15
    ensures r.status != Pending ==> r.nextAttemptAt == d.nextAttemptAt
  {
    var attempts := d.attemptCount + 1;
    var willRetry := !a.ok && attempts < cfg.maxAttempts;
    RetryDelayNeverFirstEntry(d.attemptCount);
    d.(status := if a.ok then Sent else if willRetry then Pending else Failed,
       attemptCount := attempts,
       lastAttemptAt := Some(now),
       lastError := if a.ok then None else a.error,
       nextAttemptAt := if willRetry then now + ComputeNextAttempt(attempts) else d.nextAttemptAt,
       lockedUntil := None)
  }

  /** Everything one batch depends on besides the table: subscriptions, the other tables, settings, the clock and the network. */
  datatype BatchContext = BatchContext(subs: seq<Subscription>, db: Database, cfg: Config, now: int, net: Outbound -> Reply)

  /**
   * What one iteration of the batch loop does to a row: lease it, then, if
   * its subscription exists, attempt it and record the outcome. A row whose
   * subscription is gone keeps its lease and is skipped.
   */
  function RowAfter(d: Delivery, ctx: BatchContext): (r: Delivery)
    ensures r.deliveryId == d.deliveryId
  {
    var leased := Lease(d, ctx.now, ctx.cfg);
    match FindSubscription(ctx.subs, leased.subscriptionId)
    case None => leased
    case Some(sub) => RecordOutcome(leased, AttemptDelivery(leased, sub, ctx.db, ctx.cfg, ctx.net), ctx.now, ctx.cfg)
  }

  function Step(rows: map<string, Delivery>, id: string, ctx: BatchContext): (r: map<string, Delivery>)
    ensures r.Keys == rows.Keys
  {
    if id in rows then rows[id := RowAfter(rows[id], ctx)] else rows
  }

  /** The table after the batch loop has handled the first `n` of `ids`, in order. */
  function RunBatch(rows: map<string, Delivery>, ids: seq<string>, ctx: BatchContext, n: nat): (r: map<string, Delivery>)
    requires n <= |ids|
  {
    if n == 0 then rows else Step(RunBatch(rows, ids, ctx, n - 1), ids[n - 1], ctx)
  }

  /** The batch changes rows and adds or removes none. */
  lemma {:induction false} RunBatchKeys(rows: map<string, Delivery>, ids: seq<string>, ctx: BatchContext, n: nat)
    requires n <= |ids|
    ensures RunBatch(rows, ids, ctx, n).Keys == rows.Keys
  {
    if n > 0 {
      RunBatchKeys(rows, ids, ctx, n - 1);
    }
  }

  /** Rows outside the batch are untouched. */
  lemma {:induction false} RunBatchFrame(rows: map<string, Delivery>, ids: seq<string>, ctx: BatchContext, n: nat, id: string)
    requires n <= |ids| && id in rows && id !in ids[..n]
    ensures id in RunBatch(rows, ids, ctx, n) && RunBatch(rows, ids, ctx, n)[id] == rows[id]
  {
    if n > 0 {
      assert ids[..n] == ids[..n - 1] + [ids[n - 1]];
      RunBatchFrame(rows, ids, ctx, n - 1, id);
    }
  }

  /** With distinct ids, each row of the batch is handled exactly once, from its state before the batch. */
  lemma {:induction false} RunBatchPerRow(rows: map<string, Delivery>, ids: seq<string>, ctx: BatchContext, n: nat, k: nat)
    requires NoDuplicates(ids) && k < n <= |ids| && ids[k] in rows
    ensures ids[k] in RunBatch(rows, ids, ctx, n) && RunBatch(rows, ids, ctx, n)[ids[k]] == RowAfter(rows[ids[k]], ctx)
  {
    if k == n - 1 {
      assert ids[k] !in ids[..k];
      RunBatchFrame(rows, ids, ctx, k, ids[k]);
    } else {
      RunBatchPerRow(rows, ids, ctx, n - 1, k);
    }
  }

  /** A due row with a subscription is attempted once, and its lease released. */
  lemma AttemptedRow(d: Delivery, ctx: BatchContext)
    requires IsDue(d, ctx.now) && FindSubscription(ctx.subs, d.subscriptionId).Some?
    ensures var r := RowAfter(d, ctx);
      && r.attemptCount == d.attemptCount + 1
      && r.lockedUntil.None? && r.lastAttemptAt == Some(ctx.now)
      && var a := AttemptDelivery(d.(lockedUntil := Some(ctx.now + ctx.cfg.lockSeconds)),
                                  FindSubscription(ctx.subs, d.subscriptionId).value, ctx.db, ctx.cfg, ctx.net);
         && (r.status == Sent <==> a.ok)
         && (r.status == Pending ==> r.nextAttemptAt == ctx.now + ComputeNextAttempt(d.attemptCount + 1))
  {
  }

  /**
   * A due row whose subscription is gone is not attempted and stays leased:
   * no batch selects it again until the lease has expired.
   */
  lemma OrphanRowStaysLeased(d: Delivery, ctx: BatchContext, later: int)
    requires IsDue(d, ctx.now) && FindSubscription(ctx.subs, d.subscriptionId).None?
    ensures var r := RowAfter(d, ctx);
      && r == d.(lockedUntil := Some(ctx.now + ctx.cfg.lockSeconds))
      && (later <= ctx.now + ctx.cfg.lockSeconds ==> !IsDue(r, later))
      && (later > ctx.now + ctx.cfg.lockSeconds && later >= d.nextAttemptAt ==> IsDue(r, later))
  {
  }

  /** A row has never been attempted more than the limit allows, and a pending row still has an attempt left. */
  predicate WithinBudget(d: Delivery, cfg: Config) {
    d.attemptCount <= cfg.maxAttempts && (d.status == Pending ==> d.attemptCount < cfg.maxAttempts)
  }

  ghost predicate AllWithinBudget(rows: map<string, Delivery>, cfg: Config) {
    forall id :: id in rows ==> WithinBudget(rows[id], cfg)
  }

  /** Handling a row keeps it within its attempt budget. */
  lemma RowAfterWithinBudget(d: Delivery, ctx: BatchContext)
    requires WithinBudget(d, ctx.cfg) && d.status == Pending
    ensures WithinBudget(RowAfter(d, ctx), ctx.cfg)
  {
  }

  /** Handling one pending row keeps the whole table within budget. */
  lemma StepWithinBudget(rows: map<string, Delivery>, id: string, ctx: BatchContext)
    requires AllWithinBudget(rows, ctx.cfg)
    requires id in rows ==> rows[id].status == Pending
    ensures AllWithinBudget(Step(rows, id, ctx), ctx.cfg)
  {
    if id in rows {
      RowAfterWithinBudget(rows[id], ctx);
    }
  }

  /**
   * A batch over distinct due rows keeps every row within its attempt
   * budget: no delivery is attempted more than WEBHOOK_MAX_ATTEMPTS times.
   */
  lemma {:induction false} RunBatchWithinBudget(rows: map<string, Delivery>, ids: seq<string>, ctx: BatchContext, n: nat)
    requires n <= |ids| && NoDuplicates(ids)
    requires forall k :: 0 <= k < |ids| ==> DueIn(rows, ids[k], ctx.now)
    requires AllWithinBudget(rows, ctx.cfg)
    ensures AllWithinBudget(RunBatch(rows, ids, ctx, n), ctx.cfg)
  {
    if n > 0 {
      RunBatchWithinBudget(rows, ids, ctx, n - 1);
      var before := RunBatch(rows, ids, ctx, n - 1);
      var id := ids[n - 1];
      assert id !in ids[..n - 1];
      assert DueIn(rows, id, ctx.now);
      RunBatchFrame(rows, ids, ctx, n - 1, id);
      StepWithinBudget(before, id, ctx);
      assert RunBatch(rows, ids, ctx, n) == Step(before, id, ctx);
    }
  }

  /** Emitted rows start within budget whenever at least one attempt is allowed. */
  lemma {:induction false} EmitWithinBudget(rows: map<string, Delivery>, ds: seq<Delivery>, cfg: Config)
    requires cfg.maxAttempts >= 1 && AllWithinBudget(rows, cfg)
    requires forall d :: d in ds ==> d.attemptCount == 0
    ensures AllWithinBudget(InsertAll(rows, ds), cfg)
    decreases |ds|
  {
    if ds != [] {
      var n := |ds| - 1;
      assert ds[n] in ds;
      assert forall d :: d in ds[..n] ==> d in ds;
      EmitWithinBudget(rows, ds[..n], cfg);
    }
  }

  /** A second update of the same key overrides the first. */
  lemma UpdateTwice<K, V>(m: map<K, V>, k: K, a: V, b: V)
    ensures m[k := a][k := b] == m[k := b]
  {
  }

  /** The table and its insertion order list the same distinct ids, each row under its own id. */
  ghost predicate ConsistentTable(rows: map<string, Delivery>, order: seq<string>) {
    && NoDuplicates(order)
    && (forall id :: id in rows <==> id in order)
    && (forall id :: id in rows ==> rows[id].deliveryId == id)
  }

  lemma InsertKeepsConsistent(rows: map<string, Delivery>, order: seq<string>, d: Delivery)
    requires ConsistentTable(rows, order) && d.deliveryId !in rows
    ensures ConsistentTable(rows[d.deliveryId := d], order + [d.deliveryId])
  {
    var o := order + [d.deliveryId];
    forall a, b | 0 <= a < b < |o| ensures o[a] != o[b] {
      if b == |order| {
        assert o[a] == order[a];
      } else {
        assert o[a] == order[a] && o[b] == order[b];
      }
    }
  }

  lemma ReplaceKeepsConsistent(rows: map<string, Delivery>, order: seq<string>, d: Delivery)
    requires ConsistentTable(rows, order) && d.deliveryId in rows
    ensures ConsistentTable(rows[d.deliveryId := d], order)
  {
  }

  lemma InsertAllSnoc(rows: map<string, Delivery>, ds: seq<Delivery>, d: Delivery)
    ensures InsertAll(rows, ds + [d]) == InsertAll(rows, ds)[d.deliveryId := d]
    ensures IdsOf(ds + [d]) == IdsOf(ds) + [d.deliveryId]
  {
    assert (ds + [d])[..|ds|] == ds;
  }

  /** One more subscription adds its row exactly when it matches. */
  lemma EmitRowsStep(subs: seq<Subscription>, tenantId: string, eventType: string, data: EventData, now: int, ids: seq<FreshIds>, i: nat)
    requires |ids| == |subs| && i < |subs|
    ensures EmitRows(subs, tenantId, eventType, data, now, ids, i + 1)
         == if Matches(subs[i], tenantId, eventType)
            then EmitRows(subs, tenantId, eventType, data, now, ids, i) + [NewDelivery(subs[i], tenantId, eventType, data, now, ids[i])]
            else EmitRows(subs, tenantId, eventType, data, now, ids, i)
  {
  }

  lemma EmitStep(rows0: map<string, Delivery>, order0: seq<string>, emitted: seq<Delivery>, d: Delivery)
    ensures InsertAll(rows0, emitted + [d]) == InsertAll(rows0, emitted)[d.deliveryId := d]
    ensures order0 + IdsOf(emitted + [d]) == order0 + IdsOf(emitted) + [d.deliveryId]
  {
    InsertAllSnoc(rows0, emitted, d);
  }

  /** The outbox: delivery rows by id, and the order in which they were inserted. */
  class DeliveryStore {
    var rows: map<string, Delivery>
    var order: seq<string>

    ghost predicate Valid()
      reads this
    {
      ConsistentTable(rows, order)
    }

    constructor()
      ensures Valid() && rows == map[] && order == []
    {
      rows := map[];
      order := [];
    }

    /** The INSERT of one delivery row under a new id. */
    method Insert(d: Delivery)
      requires Valid() && d.deliveryId !in rows
      modifies this
      ensures Valid()
      ensures rows == old(rows)[d.deliveryId := d] && order == old(order) + [d.deliveryId]
    {
      InsertKeepsConsistent(rows, order, d);
      rows := rows[d.deliveryId := d];
      order := order + [d.deliveryId];
    }

    /** The UPDATE of one delivery row, which keeps its id. */
    method Replace(d: Delivery)
      requires Valid() && d.deliveryId in rows
      modifies this
      ensures Valid()
      ensures rows == old(rows)[d.deliveryId := d] && order == old(order)
    {
      ReplaceKeepsConsistent(rows, order, d);
      rows := rows[d.deliveryId := d];
    }

    /** `emitEvent`: inserts one pending delivery per matching subscription. */
    method EmitEvent(subs: seq<Subscription>, tenantId: string, eventType: string, data: EventData, now: int, ids: seq<FreshIds>)
      requires Valid()
      requires |ids| == |subs| && FreshFor(ids, rows)
      modifies this
      ensures Valid()
      ensures rows == InsertAll(old(rows), EmitRows(subs, tenantId, eventType, data, now, ids, |subs|))
      ensures order == old(order) + IdsOf(EmitRows(subs, tenantId, eventType, data, now, ids, |subs|))
    {
      ghost var rows0, order0 := rows, order;
      ghost var emitted: seq<Delivery> := [];
      var i := 0;
      while i < |subs|
        invariant 0 <= i <= |subs|
        invariant Valid()
        invariant emitted == EmitRows(subs, tenantId, eventType, data, now, ids, i)
        invariant rows == InsertAll(rows0, emitted)
        invariant order == order0 + IdsOf(emitted)
        invariant forall k :: i <= k < |ids| ==> ids[k].deliveryId !in rows
      {
        EmitRowsStep(subs, tenantId, eventType, data, now, ids, i);
        if Matches(subs[i], tenantId, eventType) {
          var d := NewDelivery(subs[i], tenantId, eventType, data, now, ids[i]);
          EmitStep(rows0, order0, emitted, d);
          Insert(d);
          emitted := emitted + [d];
        }
        i := i + 1;
      }
    }

    /**
     * One iteration of the batch loop: lease the row, re-read it with its
     * subscription, attempt it and record the outcome. A row whose
     * subscription is gone is left leased.
     */
    method Handle(ctx: BatchContext, id: string)
      requires Valid()
      modifies this
      ensures Valid() && order == old(order)
      ensures rows == Step(old(rows), id, ctx)
    {
      if id in rows {
        ghost var before := rows;
        var leased := Lease(rows[id], ctx.now, ctx.cfg);
        Replace(leased);
        match FindSubscription(ctx.subs, leased.subscriptionId) {
          case None =>
            assert leased == RowAfter(before[id], ctx);
          case Some(sub) =>
            var attempt := AttemptDelivery(leased, sub, ctx.db, ctx.cfg, ctx.net);
            var outcome := RecordOutcome(leased, attempt, ctx.now, ctx.cfg);
            Replace(outcome);
            assert outcome == RowAfter(before[id], ctx);
            UpdateTwice(before, id, leased, outcome);
        }
      }
    }

    /**
     * `processWebhookBatch`: selects the due rows, then handles each one in
     * turn; returns how many were selected.
     */
    method ProcessBatch(ctx: BatchContext, limit: nat) returns (processed: nat)
      requires Valid()
      modifies this
      ensures Valid() && order == old(order)
      ensures processed == |SelectDue(old(rows), old(order), ctx.now, limit)|
      ensures var due := SelectDue(old(rows), old(order), ctx.now, limit);
        rows == RunBatch(old(rows), due, ctx, |due|)
    {
      ghost var rows0 := rows;
      var due := SelectDue(rows, order, ctx.now, limit);
      var i := 0;
      while i < |due|
        invariant 0 <= i <= |due|
        invariant Valid() && order == old(order)
        invariant rows == RunBatch(rows0, due, ctx, i)
      {
        Handle(ctx, due[i]);
        i := i + 1;
      }
      processed := |due|;
    }
  }

  /**
   * One batch over a consistent table: each selected row is handled once
   * from its earlier state, every other row is untouched, and the attempt
   * budget is kept.
   */
  lemma BatchOutcome(rows: map<string, Delivery>, order: seq<string>, ctx: BatchContext, limit: nat)
    requires NoDuplicates(order)
    ensures var due := SelectDue(rows, order, ctx.now, limit);
      var after := RunBatch(rows, due, ctx, |due|);
      && after.Keys == rows.Keys
      && (forall id :: id in due ==> id in rows && id in after && after[id] == RowAfter(rows[id], ctx))
      && (forall id :: id in rows && id !in due ==> id in after && after[id] == rows[id])
      && (AllWithinBudget(rows, ctx.cfg) ==> AllWithinBudget(after, ctx.cfg))
  {
    var due := SelectDue(rows, order, ctx.now, limit);
    RunBatchKeys(rows, due, ctx, |due|);
    forall id | id in due ensures id in rows && id in RunBatch(rows, due, ctx, |due|) && RunBatch(rows, due, ctx, |due|)[id] == RowAfter(rows[id], ctx) {
      var k :| 0 <= k < |due| && due[k] == id;
      RunBatchPerRow(rows, due, ctx, |due|, k);
    }
    forall id | id in rows && id !in due ensures id in RunBatch(rows, due, ctx, |due|) && RunBatch(rows, due, ctx, |due|)[id] == rows[id] {
      assert due[..|due|] == due;
      RunBatchFrame(rows, due, ctx, |due|, id);
    }
    if AllWithinBudget(rows, ctx.cfg) {
      RunBatchWithinBudget(rows, due, ctx, |due|);
    }
  }
}

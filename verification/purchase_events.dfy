/** The service driven by a sequence of calls and callbacks, one at a time, as
    the UI thread delivers them. */
module PurchaseEvents {
  import opened Common
  import opened Completion
  import opened InAppPurchase
  import Registry
  import TransactionBatches

  /** One call or callback. A run may finish a handle that was never started,
      or finish one twice, which the service cannot do (each finish belongs to
      its own `RequestProductData` call), so `Run` admits more traces than the
      service produces; the registry lemmas below are safety properties and
      hold for all of them. */
  datatype Event =
    | Purchase(productId: string)
    | RestoreAll
    | Updated(batch: seq<Transaction>)
    | RestoreFailed(code: int, description: string)
    | ProductRequestStarted
    | ProductRequestFinished(handle: nat, outcome: RequestOutcome)

  function Step(s: Service, e: Event): Service {
    match e
    case Purchase(p) => PurchaseProduct(s, p)
    case RestoreAll => Restore(s)
    case Updated(batch) => UpdatedTransactions(s, batch)
    case RestoreFailed(code, description) => RestoreCompletedTransactionsFailedWithError(s, code, description)
    case ProductRequestStarted => StartProductRequest(s).0
    case ProductRequestFinished(h, outcome) => FinishProductRequest(s, h, outcome).0
  }

  function Run(s: Service, events: seq<Event>): Service
    decreases |events|
  {
    if events == [] then s else Run(Step(s, events[0]), events[1..])
  }

  /** Every call and callback keeps the registry free of repeats and stale handles. */
  lemma StepPreservesValid(s: Service, e: Event)
    requires Valid(s)
    ensures Valid(Step(s, e))
  {
  }

  lemma {:induction false} RunPreservesValid(s: Service, events: seq<Event>)
    requires Valid(s)
    ensures Valid(Run(s, events))
    decreases |events|
  {
    if events != [] {
      StepPreservesValid(s, events[0]);
      RunPreservesValid(Step(s, events[0]), events[1..]);
    }
  }

  predicate IsRequestEvent(e: Event) {
    e.ProductRequestStarted? || e.ProductRequestFinished?
  }

  /** Purchases, restores and transaction callbacks leave the registry alone. */
  lemma {:induction false} OtherEventsKeepRegistry(s: Service, events: seq<Event>)
    requires forall i :: 0 <= i < |events| ==> !IsRequestEvent(events[i])
    ensures Run(s, events).requests == s.requests
    ensures Run(s, events).nextRequest == s.nextRequest
    decreases |events|
  {
    if events != [] {
      assert !IsRequestEvent(events[0]);
      OtherEventsKeepRegistry(Step(s, events[0]), events[1..]);
    }
  }

  /** A product-data request that waits while other things happen still leaves
      the registry with exactly its prior contents, on every exit path. */
  lemma {:induction false} RegistryRestoredAfterWait(s: Service, during: seq<Event>, outcome: RequestOutcome)
    requires Valid(s)
    requires forall i :: 0 <= i < |during| ==> !IsRequestEvent(during[i])
    ensures var started := StartProductRequest(s);
      FinishProductRequest(Run(started.0, during), started.1, outcome).0.requests == s.requests
  {
    var started := StartProductRequest(s);
    OtherEventsKeepRegistry(started.0, during);
    Registry.AddLastThenRemove(s.requests, started.1);
  }

  /** Overlapping requests: a request that ends removes only its own handle,
      and the others stay registered in their order. */
  lemma FinishRemovesOnlyItsHandle(s: Service, i: nat, outcome: RequestOutcome)
    requires Valid(s)
    requires i < |s.requests|
    ensures FinishProductRequest(s, s.requests[i], outcome).0.requests ==
      s.requests[..i] + s.requests[i + 1..]
  {
    var h := s.requests[i];
    assert h !in s.requests[..i] by {
      forall k | 0 <= k < i ensures s.requests[..i][k] != h {
        assert s.requests[..i][k] == s.requests[k];
      }
    }
    Registry.RemoveFirstAt(s.requests, h, i);
  }

  /** A call that installs a new completion source. */
  predicate StartsOperation(e: Event) {
    e.Purchase? || e.RestoreAll?
  }

  /** `PurchaseProduct` and `Restore` replace any earlier source, completed or
      not, with a fresh pending one. */
  lemma NewOperationReplacesSource(s: Service, e: Event)
    requires StartsOperation(e)
    ensures Step(s, e).action == Some(Pending)
  {
  }

  /** One-shot: once the source has completed (or while there is none), only
      a new purchase or restore changes it. */
  lemma {:induction false} CompletedSourceIsFinal(s: Service, events: seq<Event>)
    requires !IsPending(s.action)
    requires forall i :: 0 <= i < |events| ==> !StartsOperation(events[i])
    ensures Run(s, events).action == s.action
    decreases |events|
  {
    if events != [] {
      var e := events[0];
      assert !StartsOperation(e);
      if e.Updated? {
        TransactionBatches.CompletedSourceIsFinal(s, e.batch);
      }
      CompletedSourceIsFinal(Step(s, e), events[1..]);
    }
  }

  /** A replaced source is never touched again: whatever happens later, the
      sources already replaced keep the states they were replaced in. */
  lemma {:induction false} ReplacedSourcesAreFrozen(s: Service, events: seq<Event>)
    ensures |s.replaced| <= |Run(s, events).replaced|
    ensures Run(s, events).replaced[..|s.replaced|] == s.replaced
    decreases |events|
  {
    if events != [] {
      var s1 := Step(s, events[0]);
      ReplacedSourcesAreFrozen(s1, events[1..]);
      var r := Run(s, events);
      assert r == Run(s1, events[1..]);
      assert s1.replaced[..|s.replaced|] == s.replaced;
      assert r.replaced[..|s.replaced|] == r.replaced[..|s1.replaced|][..|s.replaced|];
    }
  }

  /** Overlapping operations: a purchase or restore started while the current
      source is still pending, whatever led there, strands that source's
      caller: it stays pending for good whatever StoreKit reports afterwards. */
  lemma StartWhilePendingStrands(s: Service, second: Event, later: seq<Event>)
    requires IsPending(s.action)
    requires StartsOperation(second)
    ensures var r := Run(Step(s, second), later);
      |s.replaced| < |r.replaced| && r.replaced[|s.replaced|] == Pending
  {
    var s2 := Step(s, second);
    assert s2.replaced == s.replaced + [Pending];
    ReplacedSourcesAreFrozen(s2, later);
    assert Run(s2, later).replaced[..|s2.replaced|][|s.replaced|] == Pending;
  }

  /** The direct case: two starts in a row strand the first caller. */
  lemma OverlapStrandsFirstCaller(s: Service, first: Event, second: Event, later: seq<Event>)
    requires StartsOperation(first) && StartsOperation(second)
    ensures var s1 := Step(s, first);
      var r := Run(Step(s1, second), later);
      |s1.replaced| < |r.replaced| && r.replaced[|s1.replaced|] == Pending
  {
    StartWhilePendingStrands(Step(s, first), second, later);
  }

  /** A restore the user cancels (code 2) leaves the source pending: the
      caller of `Restore` keeps waiting for a later transaction. */
  lemma CancelledRestoreKeepsWaiting(s: Service, description: string)
    ensures Step(Restore(s), RestoreFailed(PaymentCancelledCode, description)).action == Some(Pending)
  {
  }

  /** After a cancelled restore, the next batch decides the restore's source
      like any other pending source: its first finished transaction, of any
      product, resolves it, and with none the caller keeps waiting. */
  lemma CancelledRestoreDecidedByNextBatch(s: Service, description: string, batch: seq<Transaction>)
    ensures var decisive := Filter(batch, TransactionBatches.Finishes);
      Run(Restore(s), [RestoreFailed(PaymentCancelledCode, description), Updated(batch)]).action ==
        if |decisive| > 0 then Some(TransactionBatches.Outcome(decisive[0])) else Some(Pending)
  {
    var events := [RestoreFailed(PaymentCancelledCode, description), Updated(batch)];
    var s1 := Step(Restore(s), events[0]);
    assert events[1..] == [Updated(batch)] && events[1..][1..] == [];
    assert Run(Restore(s), events) == Run(s1, [Updated(batch)]);
    assert Run(s1, [Updated(batch)]) == UpdatedTransactions(s1, batch);
    TransactionBatches.BatchAction(s1, batch);
  }

  /** So a cancelled restore is reported as a success when an unrelated
      purchase is delivered next. */
  lemma CancelledRestoreSucceedsOnUnrelatedPurchase(s: Service, description: string, productId: string)
    ensures Run(Restore(s), [RestoreFailed(PaymentCancelledCode, description),
                             Updated([Transaction(Purchased, productId, None, None)])]).action
      == Some(Succeeded)
  {
    var tx := Transaction(Purchased, productId, None, None);
    CancelledRestoreDecidedByNextBatch(s, description, [tx]);
    assert Filter([tx], TransactionBatches.Finishes) == [tx];
  }

  /** A restore failure with any other code fails the pending restore with
      the error's description. */
  lemma RestoreFailureFailsRestore(s: Service, code: int, description: string)
    requires code != PaymentCancelledCode
    ensures Step(Restore(s), RestoreFailed(code, description)).action ==
      Some(Faulted(General(description)))
  {
  }

  /** Purchasing a product that StoreKit reports Purchased completes the
      purchase and sets the product's persisted flag. */
  lemma PurchaseScenario(stored: map<string, bool>, productId: string, original: Option<string>, error: Option<string>)
    ensures var tx := Transaction(Purchased, productId, original, error);
      var r := Run(Create(stored), [Purchase(productId), Updated([tx])]);
      && r.action == Some(Succeeded)
      && productId in r.entitlements && r.entitlements[productId]
      && r.queue == [AddPayment(productId), FinishTransaction(tx)]
  {
    var tx := Transaction(Purchased, productId, original, error);
    var s1 := PurchaseProduct(Create(stored), productId);
    var events := [Purchase(productId), Updated([tx])];
    assert events[1..] == [Updated([tx])] && events[1..][1..] == [];
    assert Run(Create(stored), events) == Run(s1, [Updated([tx])]);
    assert Run(s1, [Updated([tx])]) == UpdatedTransactions(s1, [tx]);
    assert UpdatedTransactions(s1, [tx]) == ObserveTransaction(s1, tx);
  }
}

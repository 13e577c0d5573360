/** `InAppPurchaseService` and its `TransactionObserver`: every public call and
    every StoreKit callback is one atomic, deterministic step on an immutable
    `Service` value. StoreKit itself is not modelled; the calls the service makes
    on the payment queue are recorded, and the callbacks arrive as inputs. */
module InAppPurchase {
  import opened Common
  import opened Completion
  import Registry

  /** The .NET exceptions the service raises or relays. */
  datatype Exception =
    | General(message: string)           // System.Exception
    | InvalidOperation(message: string)  // System.InvalidOperationException
    | NullReference                      // System.NullReferenceException
    | Aggregate(inner: Exception)        // System.AggregateException around one inner exception

  const UnableToProcessMessage: string := "Unable to process transaction!"
  const ParentalControlsMessage: string :=
    "Parental controls are active. After approval, the purchase will be complete."
  const TimeoutMessage: string := "Timeout waiting for Apple to respond"

  /** StoreKit's error code for a restore the user cancelled; it is not reported. */
  const PaymentCancelledCode: int := 2

  /** `SKPaymentTransactionState`. */
  datatype TransactionState = Purchasing | Purchased | Failed | Restored | Deferred

  /** The parts of an `SKPaymentTransaction` the service reads. `originalProductId`
      is `OriginalTransaction.Payment.ProductIdentifier` (None when there is no
      original transaction); `error` is `Error.LocalizedDescription` (None when
      `Error` is null). */
  datatype Transaction = Transaction(
    state: TransactionState,
    productId: string,
    originalProductId: Option<string>,
    error: Option<string>)

  /** The catalogue answer StoreKit hands back; opaque to the service. */
  datatype ProductsResponse = ProductsResponse(products: seq<string>, invalidProductIds: seq<string>)

  /** How a product-data request ends, whichever happens first: StoreKit's
      `ReceivedResponse` or `RequestFailed` event, or the 30-second delay. */
  datatype RequestOutcome =
    | ReceivedResponse(response: ProductsResponse)
    | RequestFailed(description: string)
    | TimedOut

  /** Calls the service makes on `SKPaymentQueue.DefaultQueue`, recorded in order. */
  datatype QueueCall =
    | AddPayment(productId: string)
    | RestoreCompletedTransactions
    | FinishTransaction(transaction: Transaction)

  /** The service's state.
      - `action`: the completion source of the current purchase or restore (`_actionSource`);
      - `entitlements`: the flags written through `IDefaultValueService.Set`;
      - `requests`: handles of outstanding product-data requests, oldest first;
      - `nextRequest`: the next fresh handle (stands for allocating a new completion source);
      - `errors`: exceptions published on `ThrownExceptions`, oldest first;
      - `queue`: the payment-queue calls made so far;
      - `replaced`: the sources a later `Restore` or `PurchaseProduct` overwrote,
        oldest first. The service holds no reference to them any more, so a
        caller whose source was still pending when it was overwritten waits
        for good. */
  datatype Service = Service(
    action: Option<Slot<Exception>>,
    entitlements: map<string, bool>,
    requests: seq<nat>,
    nextRequest: nat,
    errors: seq<Exception>,
    queue: seq<QueueCall>,
    replaced: seq<Slot<Exception>>)

  /** Every registered handle was handed out before and none is registered twice. */
  predicate Valid(s: Service) {
    && (forall i :: 0 <= i < |s.requests| ==> s.requests[i] < s.nextRequest)
    && Registry.Distinct(s.requests)
  }

  /** The constructor: no purchase in flight, nothing outstanding, and the
      entitlements already persisted by the default-value store. */
  function Create(stored: map<string, bool>): (s: Service)
    ensures Valid(s)
    ensures s.action.None? && s.requests == [] && s.errors == [] && s.queue == []
    ensures s.entitlements == stored && s.replaced == []
  {
    Service(None, stored, [], 0, [], [], [])
  }

  // ---------------------------------------------------------------------------
  // Starting a purchase or a restore

  /** Overwriting `_actionSource`: the previous source, if there was one, is out
      of the service's reach from now on. */
  function Replace(s: Service): Service {
    match s.action
    case None => s.(action := Some(Pending))
    case Some(previous) => s.(action := Some(Pending), replaced := s.replaced + [previous])
  }

  /** `Restore`: a fresh pending source replaces whatever was there. */
  function Restore(s: Service): (r: Service)
    ensures r.action == Some(Pending)
    ensures s.action.None? ==> r.replaced == s.replaced
    ensures s.action.Some? ==> r.replaced == s.replaced + [s.action.value]
    ensures r.queue == s.queue + [RestoreCompletedTransactions]
    ensures r.entitlements == s.entitlements && r.errors == s.errors
    ensures r.requests == s.requests && r.nextRequest == s.nextRequest
  {
    Replace(s).(queue := s.queue + [RestoreCompletedTransactions])
  }

  /** `PurchaseProduct`: a fresh pending source replaces whatever was there and
      the payment is submitted. */
  function PurchaseProduct(s: Service, productId: string): (r: Service)
    ensures r.action == Some(Pending)
    ensures s.action.None? ==> r.replaced == s.replaced
    ensures s.action.Some? ==> r.replaced == s.replaced + [s.action.value]
    ensures r.queue == s.queue + [AddPayment(productId)]
    ensures r.entitlements == s.entitlements && r.errors == s.errors
    ensures r.requests == s.requests && r.nextRequest == s.nextRequest
  {
    Replace(s).(queue := s.queue + [AddPayment(productId)])
  }

  // ---------------------------------------------------------------------------
  // Per-transaction handlers

  function OnPurchaseSuccess(s: Service): Service {
    s.(action := Try(s.action, SetResult))
  }

  function OnPurchaseError(s: Service, e: Exception): Service {
    s.(action := Try(s.action, SetException(e)))
  }

  /** The message a Failed transaction fails the source with. */
  function FailureDescription(t: Transaction): (m: string)
    ensures t.error.Some? ==> m == t.error.value
    ensures t.error.None? ==> m == UnableToProcessMessage
  {
    match t.error
    case Some(d) => d
    case None => UnableToProcessMessage
  }

  function CompleteTransaction(s: Service, t: Transaction): Service {
    OnPurchaseSuccess(s.(entitlements := s.entitlements[t.productId := true]))
  }

  /** Reading the original transaction's product throws when there is none;
      nothing has happened yet at that point. */
  function RestoreTransaction(s: Service, t: Transaction): Result<Service, Exception> {
    match t.originalProductId
    case None => Err(NullReference)
    case Some(p) => Ok(OnPurchaseSuccess(s.(entitlements := s.entitlements[p := true])))
  }

  function FailedTransaction(s: Service, t: Transaction): Service {
    OnPurchaseError(s, General(FailureDescription(t)))
  }

  function DeferredTransaction(s: Service): Service {
    OnPurchaseError(s, General(ParentalControlsMessage))
  }

  function Finish(s: Service, t: Transaction): Service {
    s.(queue := s.queue + [FinishTransaction(t)])
  }

  /** The body of the `try` block for one transaction: the `switch` on its state. */
  function HandleTransaction(s: Service, t: Transaction): Result<Service, Exception> {
    match t.state
    case Purchased => Ok(Finish(CompleteTransaction(s, t), t))
    case Failed => Ok(Finish(FailedTransaction(s, t), t))
    case Restored =>
      (match RestoreTransaction(s, t)
       case Ok(s') => Ok(Finish(s', t))
       case Err(e) => Err(e))
    case Deferred => Ok(Finish(DeferredTransaction(s), t))
    case Purchasing => Ok(s)
  }

  /** One iteration of `UpdatedTransactions`: the handler, with an exception
      published on the error channel instead of escaping. The contract is the
      dispatch table. */
  function ObserveTransaction(s: Service, t: Transaction): (r: Service)
    // the registry of product-data requests and the replaced sources are never touched
    ensures r.requests == s.requests && r.nextRequest == s.nextRequest
    ensures r.replaced == s.replaced
    // Purchased: the transaction's own product is granted, a pending source succeeds
    ensures t.state == Purchased ==>
      && r.entitlements == s.entitlements[t.productId := true]
      && ResolvedTo(s.action, r.action, Succeeded)
      && r.errors == s.errors
      && r.queue == s.queue + [FinishTransaction(t)]
    // Restored: the ORIGINAL transaction's product is granted, a pending source succeeds
    ensures t.state == Restored && t.originalProductId.Some? ==>
      && r.entitlements == s.entitlements[t.originalProductId.value := true]
      && ResolvedTo(s.action, r.action, Succeeded)
      && r.errors == s.errors
      && r.queue == s.queue + [FinishTransaction(t)]
    // Restored without an original transaction: only the exception is published,
    // and the transaction is not finished
    ensures t.state == Restored && t.originalProductId.None? ==>
      r == s.(errors := s.errors + [NullReference])
    // Failed: no entitlement changes, a pending source fails with the error's text
    ensures t.state == Failed ==>
      && r.entitlements == s.entitlements
      && ResolvedTo(s.action, r.action, Faulted(General(
           if t.error.Some? then t.error.value else UnableToProcessMessage)))
      && r.errors == s.errors
      && r.queue == s.queue + [FinishTransaction(t)]
    // Deferred: no entitlement changes, a pending source fails with the parental-controls notice
    ensures t.state == Deferred ==>
      && r.entitlements == s.entitlements
      && ResolvedTo(s.action, r.action, Faulted(General(ParentalControlsMessage)))
      && r.errors == s.errors
      && r.queue == s.queue + [FinishTransaction(t)]
    // any other state: nothing at all
    ensures t.state == Purchasing ==> r == s
  {
    match HandleTransaction(s, t)
    case Ok(s') => s'
    case Err(e) => s.(errors := s.errors + [e])
  }

  /** `TransactionObserver.UpdatedTransactions`: the batch is handled in order,
      and an exception from one transaction does not stop the others. */
  function UpdatedTransactions(s: Service, batch: seq<Transaction>): (r: Service)
    ensures r.requests == s.requests && r.nextRequest == s.nextRequest
    ensures r.replaced == s.replaced
    ensures |s.errors| <= |r.errors| && r.errors[..|s.errors|] == s.errors
    ensures |s.queue| <= |r.queue| && r.queue[..|s.queue|] == s.queue
    ensures s.entitlements.Keys <= r.entitlements.Keys
    decreases |batch|
  {
    if batch == [] then s
    else UpdatedTransactions(ObserveTransaction(s, batch[0]), batch[1..])
  }

  /** `TransactionObserver.RestoreCompletedTransactionsFailedWithError`. */
  function RestoreCompletedTransactionsFailedWithError(s: Service, code: int, description: string): (r: Service)
    ensures r.entitlements == s.entitlements && r.errors == s.errors && r.queue == s.queue
    ensures r.requests == s.requests && r.nextRequest == s.nextRequest
    ensures r.replaced == s.replaced
    ensures code == PaymentCancelledCode ==> r.action == s.action
    ensures code != PaymentCancelledCode ==>
      ResolvedTo(s.action, r.action, Faulted(General(description)))
  {
    if code != PaymentCancelledCode then OnPurchaseError(s, General(description)) else s
  }

  // ---------------------------------------------------------------------------
  // Product-data requests

  /** Entering `RequestProductData`: a fresh completion source is appended to
      the registry. */
  function StartProductRequest(s: Service): (r: (Service, nat))
    ensures r.0.requests == s.requests + [r.1]
    ensures Valid(s) ==> r.1 !in s.requests && Valid(r.0)
    ensures r.0.action == s.action && r.0.entitlements == s.entitlements
    ensures r.0.errors == s.errors && r.0.queue == s.queue && r.0.replaced == s.replaced
  {
    var h := s.nextRequest;
    var r := s.(requests := s.requests + [h], nextRequest := h + 1);
    assert Valid(s) ==> Valid(r) by {
      if Valid(s) {
        forall i, j | 0 <= i < j < |r.requests| ensures r.requests[i] != r.requests[j] {
          if j == |s.requests| {
            assert r.requests[i] == s.requests[i];
          } else {
            assert r.requests[i] == s.requests[i] && r.requests[j] == s.requests[j];
          }
        }
      }
    }
    (r, h)
  }

  /** What the caller of `RequestProductData` gets for each way the wait ends.
      A failed request faults the source, so reading `tcs.Task.Result` throws an
      `AggregateException` around the failure. */
  function RequestResult(outcome: RequestOutcome): (r: Result<ProductsResponse, Exception>)
    ensures r.Ok? <==> outcome.ReceivedResponse?
    ensures outcome.ReceivedResponse? ==> r.value == outcome.response
    ensures outcome.RequestFailed? ==> r.error == Aggregate(General(outcome.description))
    ensures outcome.TimedOut? ==> r.error == InvalidOperation(TimeoutMessage)
  {
    match outcome
    case ReceivedResponse(response) => Ok(response)
    case RequestFailed(description) => Err(Aggregate(General(description)))
    case TimedOut => Err(InvalidOperation(TimeoutMessage))
  }

  /** Leaving `RequestProductData` on any path: the `finally` block removes the
      request's own handle from the registry. */
  function FinishProductRequest(s: Service, handle: nat, outcome: RequestOutcome)
    : (r: (Service, Result<ProductsResponse, Exception>))
    ensures r.0.requests == Registry.RemoveFirst(s.requests, handle)
    ensures r.0.nextRequest == s.nextRequest
    ensures Valid(s) ==> Valid(r.0) && handle !in r.0.requests
    ensures r.1 == RequestResult(outcome)
    ensures r.0.action == s.action && r.0.entitlements == s.entitlements
    ensures r.0.errors == s.errors && r.0.queue == s.queue && r.0.replaced == s.replaced
  {
    var r := s.(requests := Registry.RemoveFirst(s.requests, handle));
    assert Valid(s) ==> Valid(r) && handle !in r.requests by {
      if Valid(s) {
        Registry.RemoveFirstDistinct(s.requests, handle);
        forall i | 0 <= i < |r.requests| ensures r.requests[i] < r.nextRequest {
          assert r.requests[i] in s.requests;
        }
      }
    }
    (r, RequestResult(outcome))
  }

  /** `RequestProductData` with nothing else happening during the wait: the
      registry ends exactly as it began, whichever way the wait ended. */
  function RequestProductData(s: Service, outcome: RequestOutcome)
    : (r: (Service, Result<ProductsResponse, Exception>))
    ensures Valid(s) ==> r.0.requests == s.requests && Valid(r.0)
    ensures r.1 == RequestResult(outcome)
    ensures r.1.Ok? <==> outcome.ReceivedResponse?
    ensures outcome.TimedOut? ==> r.1 == Err(InvalidOperation(TimeoutMessage))
    ensures r.0.action == s.action && r.0.entitlements == s.entitlements
    ensures r.0.errors == s.errors && r.0.queue == s.queue && r.0.replaced == s.replaced
  {
    var (started, handle) := StartProductRequest(s);
    assert Valid(s) ==> Registry.RemoveFirst(s.requests + [handle], handle) == s.requests by {
      if Valid(s) {
        Registry.AddLastThenRemove(s.requests, handle);
      }
    }
    FinishProductRequest(started, handle, outcome)
  }
}

/** What one `UpdatedTransactions` batch does, compared with definitions that
    look at the batch as a whole rather than step by step: which products it
    grants, which transaction decides the pending purchase, which exceptions it
    publishes and which transactions it finishes. */
module TransactionBatches {
  import opened Common
  import opened Completion
  import opened InAppPurchase

  /** The handler throws: a Restored transaction without an original transaction. */
  predicate Throws(t: Transaction) {
    t.state == Restored && t.originalProductId.None?
  }

  /** The transaction is finished on the queue, and it tries to resolve the source. */
  predicate Finishes(t: Transaction) {
    t.state != Purchasing && !Throws(t)
  }

  /** The transaction grants a product. */
  predicate Grants(t: Transaction) {
    t.state == Purchased || (t.state == Restored && t.originalProductId.Some?)
  }

  /** The product a granting transaction unlocks: its own for a purchase, the
      original transaction's for a restore. */
  function GrantedProduct(t: Transaction): string
    requires Grants(t)
  {
    if t.state == Purchased then t.productId else t.originalProductId.value
  }

  /** Every product some transaction of the batch grants. */
  function GrantedProducts(batch: seq<Transaction>): set<string> {
    set t | t in batch && Grants(t) :: GrantedProduct(t)
  }

  /** The completed state a finished transaction asks the source for. */
  function Outcome(t: Transaction): Slot<Exception>
    requires Finishes(t)
  {
    match t.state
    case Purchased => Succeeded
    case Restored => Succeeded
    case Failed => Faulted(General(FailureDescription(t)))
    case Deferred => Faulted(General(ParentalControlsMessage))
  }

  /** The payment-queue calls that finish `ts`, in order. */
  function FinishCalls(ts: seq<Transaction>): seq<QueueCall> {
    seq(|ts|, i requires 0 <= i < |ts| => FinishTransaction(ts[i]))
  }

  /** `n` null-reference exceptions. */
  function NullReferences(n: nat): seq<Exception> {
    seq(n, _ => NullReference)
  }

  /** The first finished transaction of a batch decides a pending source; a
      source that is absent or already completed is left as it was. */
  lemma {:induction false} BatchAction(s: Service, batch: seq<Transaction>)
    ensures var decisive := Filter(batch, Finishes);
      UpdatedTransactions(s, batch).action ==
        if IsPending(s.action) && |decisive| > 0 then Some(Outcome(decisive[0])) else s.action
    decreases |batch|
  {
    if batch != [] {
      BatchAction(ObserveTransaction(s, batch[0]), batch[1..]);
    }
  }

  /** The flags the batch writes: true for every granted product. */
  function TrueOn(products: set<string>): map<string, bool> {
    map p | p in products :: true
  }

  lemma GrantedProductsCons(t: Transaction, rest: seq<Transaction>)
    ensures GrantedProducts([t] + rest) ==
      (if Grants(t) then {GrantedProduct(t)} else {}) + GrantedProducts(rest)
  {
    assert forall u :: u in [t] + rest <==> u == t || u in rest;
  }

  lemma SetThenUnion(m: map<string, bool>, p: string, products: set<string>)
    ensures m[p := true] + TrueOn(products) == m + TrueOn({p} + products)
  {
  }

  /** One transaction writes at most the flag of the product it grants. */
  lemma ObserveEntitlements(s: Service, t: Transaction)
    ensures ObserveTransaction(s, t).entitlements ==
      if Grants(t) then s.entitlements[GrantedProduct(t) := true] else s.entitlements
  {
  }

  /** The batch sets exactly the granted products to true and leaves every
      other stored flag alone. */
  lemma {:induction false} BatchEntitlements(s: Service, batch: seq<Transaction>)
    ensures UpdatedTransactions(s, batch).entitlements == s.entitlements + TrueOn(GrantedProducts(batch))
    decreases |batch|
  {
    if batch == [] {
      assert GrantedProducts(batch) == {};
      assert s.entitlements + TrueOn({}) == s.entitlements;
    } else {
      var t, rest := batch[0], batch[1..];
      var s1 := ObserveTransaction(s, t);
      BatchEntitlements(s1, rest);
      assert UpdatedTransactions(s, batch) == UpdatedTransactions(s1, rest);
      assert GrantedProducts(batch) ==
        (if Grants(t) then {GrantedProduct(t)} else {}) + GrantedProducts(rest) by {
        assert batch == [t] + rest;
        GrantedProductsCons(t, rest);
      }
      ObserveEntitlements(s, t);
      if Grants(t) {
        SetThenUnion(s.entitlements, GrantedProduct(t), GrantedProducts(rest));
      } else {
        assert GrantedProducts(batch) == GrantedProducts(rest);
      }
    }
  }

  /** One transaction publishes an exception exactly when its handler throws. */
  lemma ObserveErrors(s: Service, t: Transaction)
    ensures ObserveTransaction(s, t).errors ==
      if Throws(t) then s.errors + [NullReference] else s.errors
  {
  }

  /** One transaction is finished on the queue exactly when it is a finishing one. */
  lemma ObserveQueue(s: Service, t: Transaction)
    ensures ObserveTransaction(s, t).queue ==
      if Finishes(t) then s.queue + [FinishTransaction(t)] else s.queue
  {
  }

  lemma FinishCallsCons(t: Transaction, rest: seq<Transaction>)
    ensures FinishCalls(Filter([t] + rest, Finishes)) ==
      (if Finishes(t) then [FinishTransaction(t)] else []) + FinishCalls(Filter(rest, Finishes))
  {
    assert ([t] + rest)[1..] == rest;
  }

  lemma NullReferencesCons(t: Transaction, rest: seq<Transaction>)
    ensures NullReferences(|Filter([t] + rest, Throws)|) ==
      (if Throws(t) then [NullReference] else []) + NullReferences(|Filter(rest, Throws)|)
  {
    assert ([t] + rest)[1..] == rest;
  }

  /** Each throwing transaction publishes one null-reference exception, and
      nothing else is published. */
  lemma {:induction false} BatchErrors(s: Service, batch: seq<Transaction>)
    ensures UpdatedTransactions(s, batch).errors ==
      s.errors + NullReferences(|Filter(batch, Throws)|)
    decreases |batch|
  {
    if batch != [] {
      var t, rest := batch[0], batch[1..];
      var s1 := ObserveTransaction(s, t);
      BatchErrors(s1, rest);
      assert UpdatedTransactions(s, batch) == UpdatedTransactions(s1, rest);
      ObserveErrors(s, t);
      assert batch == [t] + rest;
      NullReferencesCons(t, rest);
    }
  }

  /** Exactly the finished transactions are finished on the queue, in batch
      order; a Purchasing transaction or one whose handler threw is not. */
  lemma {:induction false} BatchQueue(s: Service, batch: seq<Transaction>)
    ensures UpdatedTransactions(s, batch).queue == s.queue + FinishCalls(Filter(batch, Finishes))
    decreases |batch|
  {
    if batch != [] {
      var t, rest := batch[0], batch[1..];
      var s1 := ObserveTransaction(s, t);
      BatchQueue(s1, rest);
      assert UpdatedTransactions(s, batch) == UpdatedTransactions(s1, rest);
      ObserveQueue(s, t);
      assert batch == [t] + rest;
      FinishCallsCons(t, rest);
    }
  }

  /** Transactions are handled in order: two consecutive batches act like
      their concatenation. */
  lemma {:induction false} BatchSplit(s: Service, a: seq<Transaction>, b: seq<Transaction>)
    ensures UpdatedTransactions(s, a + b) == UpdatedTransactions(UpdatedTransactions(s, a), b)
    decreases |a|
  {
    if a == [] {
      assert a + b == b;
    } else {
      assert (a + b)[0] == a[0] && (a + b)[1..] == a[1..] + b;
      BatchSplit(ObserveTransaction(s, a[0]), a[1..], b);
    }
  }

  /** A pending purchase or restore succeeds if and only if the first
      transaction that gets finished is Purchased or Restored. */
  lemma SucceedsIffPurchasedOrRestored(s: Service, batch: seq<Transaction>)
    requires IsPending(s.action)
    ensures var decisive := Filter(batch, Finishes);
      UpdatedTransactions(s, batch).action == Some(Succeeded) <==>
        |decisive| > 0 && decisive[0].state in {Purchased, Restored}
  {
    BatchAction(s, batch);
  }

  /** A pending source fails with the parental-controls notice when the first
      finished transaction is Deferred. */
  lemma DeferredFailsWithNotice(s: Service, batch: seq<Transaction>)
    requires IsPending(s.action)
    requires var decisive := Filter(batch, Finishes); |decisive| > 0 && decisive[0].state == Deferred
    ensures UpdatedTransactions(s, batch).action == Some(Faulted(General(ParentalControlsMessage)))
  {
    BatchAction(s, batch);
  }

  /** A pending source stays pending exactly when no transaction of the batch
      is finished. */
  lemma StaysPendingIffNothingFinished(s: Service, batch: seq<Transaction>)
    requires IsPending(s.action)
    ensures IsPending(UpdatedTransactions(s, batch).action) <==>
      forall t :: t in batch ==> !Finishes(t)
  {
    BatchAction(s, batch);
    var decisive := Filter(batch, Finishes);
    if |decisive| > 0 {
      assert decisive[0] in decisive;
    }
  }

  /** One-shot: a completed source, or no source, survives any batch. */
  lemma CompletedSourceIsFinal(s: Service, batch: seq<Transaction>)
    requires !IsPending(s.action)
    ensures UpdatedTransactions(s, batch).action == s.action
  {
    BatchAction(s, batch);
  }

  /** A batch of transactions still in flight changes nothing at all. */
  lemma {:induction false} InFlightBatchIsInert(s: Service, batch: seq<Transaction>)
    requires forall t :: t in batch ==> t.state == Purchasing
    ensures UpdatedTransactions(s, batch) == s
    decreases |batch|
  {
    if batch != [] {
      assert batch[0] in batch;
      assert forall t :: t in batch[1..] ==> t in batch;
      InFlightBatchIsInert(s, batch[1..]);
    }
  }
}

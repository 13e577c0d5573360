# CodeHub in-app purchases and gist-file saving, modelled in Dafny

This project models the two pieces of CodeHub's iOS client that have real behaviour.

**`InAppPurchaseService`** mediates between StoreKit's asynchronous callbacks and the app's
request/response calls. Its state is one immutable `Service` value with these parts:
- the one-shot completion source of the current purchase or restore (`_actionSource`);
- the product entitlements written through `IDefaultValueService.Set`;
- the registry of outstanding product-data requests (`_productDataRequests`);
- the exceptions published on `ThrownExceptions`;
- a log of the calls made on the payment queue (`AddPayment`, `RestoreCompletedTransactions`, `FinishTransaction`);
- the sources that a later `Restore` or `PurchaseProduct` overwrote. Nothing can complete them any more, so a caller whose source was still pending when it was overwritten waits for good.

Every public call and every observer callback is a pure step function on that value
(`Restore`, `PurchaseProduct`, `UpdatedTransactions`,
`RestoreCompletedTransactionsFailedWithError`, and the start and end of a product-data request).
The per-state dispatch and the `TrySet…` semantics of the completion source are stated exactly.
Whole batches are compared with definitions that look at the batch as a whole: which products it
grants, which transaction decides the pending operation, which exceptions it publishes, which
transactions it finishes. Runs of events show two more things:
- the registry invariant is kept;
- a request's handle leaves the registry on every exit path, even while other events interleave.

**`GistFileModifyViewController`** is modelled through its save command, the alert that a failed
save raises, and the title rule.

Modules: `Common` (Option, Result, Filter), `Completion` (the completion source), `Registry`
(the linked list of request handles), `InAppPurchase` (state and steps), `TransactionBatches`
(batch properties), `PurchaseEvents` (event runs), `GistFileModify`.

Three behaviours of the code are worth knowing:
- A restore that fails with code 2 (user cancelled) is not completed by that callback: the
  source stays pending. The caller of `Restore` waits until the next finished transaction of
  any product resolves it, possibly as a success, or for good if none arrives
  (`PurchaseEvents.CancelledRestoreDecidedByNextBatch`).
- The first finished transaction of any product resolves the current source. The code never
  compares a transaction with the payment that created the source.
- Only one purchase or restore is tracked at a time. Starting a second one while the first is
  pending overwrites the first source, and its caller then waits for good
  (`PurchaseEvents.StartWhilePendingStrands`).

A failed product-data request reaches the caller as an `AggregateException` wrapping the
failure, because the code reads `tcs.Task.Result` on a faulted task.

## Model

| member | source | states |
|---|---|---|
| Completion.Try | CodeHub.iOS/Services/InAppPurchaseService.cs:32-40 | `?.TrySet…`: a null source stays null, a completed source is unchanged, a pending one takes the attempt's outcome and is then completed |
| Completion.NotPendingIsFinal | CodeHub.iOS/Services/InAppPurchaseService.cs:32-40 | a completed or absent source ignores every later sequence of resolution attempts |
| Completion.FirstAttemptWins | CodeHub.iOS/Services/InAppPurchaseService.cs:32-40 | a pending source ends in the state the first attempt asked for, whatever later attempts ask |
| Registry.RemoveFirst | CodeHub.iOS/Services/InAppPurchaseService.cs:73 | `LinkedList.Remove`: removes one element if the handle is present and leaves the list as is otherwise; it never adds an element |
| Registry.RemoveFirstAt | CodeHub.iOS/Services/InAppPurchaseService.cs:73 | the removed element is the first occurrence, and the other elements keep their order |
| Registry.RemoveFirstDistinct | CodeHub.iOS/Services/InAppPurchaseService.cs:73 | removing from a list without repeats leaves no repeats and no copy of the removed handle |
| Registry.AddLastThenRemove | CodeHub.iOS/Services/InAppPurchaseService.cs:55-74 | appending a fresh handle and removing it again gives back the original list |
| InAppPurchase.Create | CodeHub.iOS/Services/InAppPurchaseService.cs:42-47 | a new service has no source, no outstanding request, no published error, the stored entitlements, and satisfies the registry invariant |
| InAppPurchase.Restore | CodeHub.iOS/Services/InAppPurchaseService.cs:82-87 | installs a fresh pending source whatever was there before, moves the previous source (if any) to the replaced sources, and asks the queue to restore; nothing else changes |
| InAppPurchase.PurchaseProduct | CodeHub.iOS/Services/InAppPurchaseService.cs:89-95 | installs a fresh pending source whatever was there before, moves the previous source (if any) to the replaced sources, and submits a payment for the product; nothing else changes |
| InAppPurchase.FailureDescription | CodeHub.iOS/Services/InAppPurchaseService.cs:113 | a Failed transaction's message is its error description, or "Unable to process transaction!" when it has no error |
| InAppPurchase.ObserveTransaction | CodeHub.iOS/Services/InAppPurchaseService.cs:97-163 | the dispatch table. Purchased grants its own product; Restored grants the original transaction's product; both resolve a pending source as success. Failed and Deferred fail a pending source with their messages and grant nothing. A Restored transaction without an original only publishes a null-reference exception and is not finished. Purchasing changes nothing. The registry is never touched |
| InAppPurchase.UpdatedTransactions | CodeHub.iOS/Services/InAppPurchaseService.cs:132-164 | a batch leaves the registry alone, only appends to the error log and the queue log, and never removes an entitlement |
| InAppPurchase.RestoreCompletedTransactionsFailedWithError | CodeHub.iOS/Services/InAppPurchaseService.cs:166-172 | code 2 leaves the source unchanged; any other code fails a pending source with the description; nothing else changes |
| InAppPurchase.StartProductRequest | CodeHub.iOS/Services/InAppPurchaseService.cs:55-56 | the request's handle is appended to the registry; it is fresh, and the registry invariant is kept |
| InAppPurchase.RequestResult | CodeHub.iOS/Services/InAppPurchaseService.cs:62-67 | a response is returned as is. A failure becomes an AggregateException around the failure's description. A timeout becomes InvalidOperationException("Timeout waiting for Apple to respond") |
| InAppPurchase.FinishProductRequest | CodeHub.iOS/Services/InAppPurchaseService.cs:71-74 | every exit path removes the request's own handle from the registry and keeps the invariant; nothing else changes |
| InAppPurchase.RequestProductData | CodeHub.iOS/Services/InAppPurchaseService.cs:49-75 | with nothing in between, the registry ends exactly as it began on every exit path. A response is returned as the result. A failure gives an AggregateException around the failure's description. A timeout gives the timeout error |
| TransactionBatches.ObserveEntitlements | CodeHub.iOS/Services/InAppPurchaseService.cs:97-109 | one transaction writes exactly the flag of the product it grants, and writes nothing when it grants none |
| TransactionBatches.BatchEntitlements | CodeHub.iOS/Services/InAppPurchaseService.cs:97-163 | after a batch the entitlements are the prior ones with exactly the products granted by some transaction of the batch set to true |
| TransactionBatches.BatchAction | CodeHub.iOS/Services/InAppPurchaseService.cs:134-157 | the first finished transaction of the batch decides a pending source (success for Purchased and Restored, its message for Failed and Deferred); an absent or completed source is unchanged |
| TransactionBatches.BatchErrors | CodeHub.iOS/Services/InAppPurchaseService.cs:134-163 | the batch publishes one null-reference exception for each Restored transaction without an original, and nothing else; processing continues past each one |
| TransactionBatches.BatchQueue | CodeHub.iOS/Services/InAppPurchaseService.cs:139-157 | exactly the finished transactions are finished on the queue, in batch order; Purchasing ones and those whose handler threw are not |
| TransactionBatches.BatchSplit | CodeHub.iOS/Services/InAppPurchaseService.cs:134-163 | transactions are handled in order: two consecutive batches act like their concatenation |
| TransactionBatches.SucceedsIffPurchasedOrRestored | CodeHub.iOS/Services/InAppPurchaseService.cs:139-152 | a pending operation succeeds if and only if the first finished transaction is Purchased or Restored |
| TransactionBatches.DeferredFailsWithNotice | CodeHub.iOS/Services/InAppPurchaseService.cs:117-121 | a pending operation whose first finished transaction is Deferred fails with the parental-controls message |
| TransactionBatches.StaysPendingIffNothingFinished | CodeHub.iOS/Services/InAppPurchaseService.cs:134-157 | a pending operation stays pending if and only if no transaction of the batch is finished |
| TransactionBatches.CompletedSourceIsFinal | CodeHub.iOS/Services/InAppPurchaseService.cs:32-40 | a completed or absent source survives any batch unchanged |
| TransactionBatches.InFlightBatchIsInert | CodeHub.iOS/Services/InAppPurchaseService.cs:139-157 | a batch of Purchasing transactions changes nothing and finishes nothing |
| PurchaseEvents.StepPreservesValid | CodeHub.iOS/Services/InAppPurchaseService.cs:55-74 | every call and callback keeps registered handles fresh and unrepeated |
| PurchaseEvents.RunPreservesValid | CodeHub.iOS/Services/InAppPurchaseService.cs:55-74 | any run of calls and callbacks keeps the registry invariant |
| PurchaseEvents.OtherEventsKeepRegistry | CodeHub.iOS/Services/InAppPurchaseService.cs:82-172 | purchases, restores and transaction callbacks never touch the registry |
| PurchaseEvents.RegistryRestoredAfterWait | CodeHub.iOS/Services/InAppPurchaseService.cs:55-74 | a request that waits while purchases, restores and callbacks happen leaves the registry with exactly its prior contents, on every exit path |
| PurchaseEvents.FinishRemovesOnlyItsHandle | CodeHub.iOS/Services/InAppPurchaseService.cs:73 | with overlapping requests, one that ends removes only its own handle and the others keep their order |
| PurchaseEvents.NewOperationReplacesSource | CodeHub.iOS/Services/InAppPurchaseService.cs:84-91 | a purchase or restore always installs a fresh pending source, overwriting a pending or completed one |
| PurchaseEvents.CompletedSourceIsFinal | CodeHub.iOS/Services/InAppPurchaseService.cs:25-40 | once completed (or while absent) the source changes only through a new purchase or restore |
| PurchaseEvents.ReplacedSourcesAreFrozen | CodeHub.iOS/Services/InAppPurchaseService.cs:84-95 | once overwritten, a source keeps the state it was overwritten in, whatever calls and callbacks follow |
| PurchaseEvents.StartWhilePendingStrands | CodeHub.iOS/Services/InAppPurchaseService.cs:82-95 | a purchase or restore started while the current source is pending, after any history (in-flight updates, a cancelled restore, product requests), leaves that source pending for good, whatever calls and callbacks follow |
| PurchaseEvents.OverlapStrandsFirstCaller | CodeHub.iOS/Services/InAppPurchaseService.cs:82-95 | the direct case: two starts in a row leave the first caller's source pending for good |
| PurchaseEvents.CancelledRestoreKeepsWaiting | CodeHub.iOS/Services/InAppPurchaseService.cs:166-172 | the code-2 callback leaves a fresh restore's source pending |
| PurchaseEvents.CancelledRestoreDecidedByNextBatch | CodeHub.iOS/Services/InAppPurchaseService.cs:134-172 | after a cancelled restore, the first finished transaction of the next batch, of any product, decides the restore's outcome; with none it stays pending |
| PurchaseEvents.CancelledRestoreSucceedsOnUnrelatedPurchase | CodeHub.iOS/Services/InAppPurchaseService.cs:97-172 | a cancelled restore followed by a Purchased transaction of any product is reported as a success |
| PurchaseEvents.RestoreFailureFailsRestore | CodeHub.iOS/Services/InAppPurchaseService.cs:166-172 | a restore failure with any other code fails the restore with the error's description |
| PurchaseEvents.PurchaseScenario | CodeHub.iOS/Services/InAppPurchaseService.cs:89-102 | purchasing a product that is then reported Purchased completes the purchase, sets the product's flag to true and finishes the transaction |
| GistFileModify.SaveCommand | CodeHub.iOS/ViewControllers/Gists/GistFileModifyViewController.cs:43-48 | null or empty content fails with "You cannot save a file without content!" and calls nothing. Otherwise the callback, if set, is invoked exactly once with the unvalidated filename and the content. The save succeeds if and only if there is content and the callback is absent or returns normally |
| GistFileModify.AlertFor | CodeHub.iOS/ViewControllers/Gists/GistFileModifyViewController.cs:50 | an alert appears exactly when the command failed; its title is "Error" and its text is the exception's message |
| GistFileModify.Title | CodeHub.iOS/ViewControllers/Gists/GistFileModifyViewController.cs:70 | the title is never empty: "Gist File" for a null or empty filename, otherwise the filename |
| GistFileModify.TitleIsPlaceholderIff | CodeHub.iOS/ViewControllers/Gists/GistFileModifyViewController.cs:70 | the title equals "Gist File" exactly when the filename is null, empty, or itself "Gist File" |
| GistFileModify.EmptyContentIsRefused | CodeHub.iOS/ViewControllers/Gists/GistFileModifyViewController.cs:43-50 | saving without content never reaches the callback and raises the "Error" alert with the fixed message |
| GistFileModify.MissingFilenameStillSaves | CodeHub.iOS/ViewControllers/Gists/GistFileModifyViewController.cs:44-47 | a null or empty filename with content is still passed to the callback, and the save succeeds |
| GistFileModify.NoCallbackSucceedsQuietly | CodeHub.iOS/ViewControllers/Gists/GistFileModifyViewController.cs:46-47 | with no callback set, saving content succeeds with no effect and no alert |
| GistFileModify.CallbackFailureIsAlerted | CodeHub.iOS/ViewControllers/Gists/GistFileModifyViewController.cs:46-50 | an exception thrown by the callback is shown in the same "Error" alert with its own message |

## Left out

- `OctokitClientFactory.Create`: it only wires an HTTP client, a credential store and a serializer; there is no logic to model.
- `PublicGistsViewModel.CreateRequest`: a one-line delegation to the external GitHub API client.
- StoreKit itself (`SKPaymentQueue`, `SKProductsRequest`, `FinishTransaction`): calls to the queue are recorded as a log, and its callbacks arrive as inputs.
- `AddTransactionObserver` in the constructor is not recorded.
- `CanMakePayments`: it only reads a StoreKit property.
- The product identifiers given to `RequestProductData`: they are only converted to an `NSSet` and handed to StoreKit, so the model's request carries none.
- `productsRequest.Dispose()` on the success path: it releases a StoreKit object.
- The 30-second `Task.Delay` race: whichever of response, failure or delay comes first is an input (`RequestOutcome`).
- A second StoreKit event for a request that already completed (`SetResult` or `SetException` throwing inside the event handler): this happens outside the service's own code paths.
- `InAppPurchase.ObserveTransaction`: exceptions thrown by `IDefaultValueService.Set`, by `FinishTransaction` or by a null `Payment` are not modelled. The one exception source modelled is a Restored transaction without an original transaction, which throws before any effect.
- A restore that StoreKit completes with nothing to restore: the observer has no handler for that callback, so the model has no event for it. The source stays pending until a later finished transaction of any product resolves it, or for good if none arrives.
- `SKProductExtension.LocalizedPrice`: locale-dependent currency formatting by `NSNumberFormatter`.
- Reactive bindings, table-view construction, save-button enabling and first-responder handling in `ViewDidLoad`: UI plumbing. The model keeps only the title rule.
- Threads and async scheduling: each call and callback is one atomic step, as on the UI thread.
- `GistFileModify.SaveCommand`: the `Save` callback is modelled as a pure function that returns the message of the exception it throws, if any. Side effects inside the callback are not modelled.

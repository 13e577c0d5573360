/** The one-shot completion source (`TaskCompletionSource<bool>`) that bridges
    StoreKit's callbacks to the awaiting caller of `Restore` / `PurchaseProduct`.
    The field holding it may be null, so the service sees an `Option<Slot<E>>`. */
module Completion {
  import opened Common

  /** Pending until the first resolution; then completed for good. */
  datatype Slot<+E> = Pending | Succeeded | Faulted(error: E)

  /** One resolution attempt: `TrySetResult(true)` or `TrySetException(e)`. */
  datatype Attempt<+E> = SetResult | SetException(error: E)

  /** True when a source is present and nobody has resolved it yet. */
  predicate IsPending<E>(source: Option<Slot<E>>) {
    source.Some? && source.value.Pending?
  }

  /** The completed state an attempt aims for. */
  function Target<E>(a: Attempt<E>): (r: Slot<E>)
    ensures !r.Pending?
  {
    match a
    case SetResult => Succeeded
    case SetException(e) => Faulted(e)
  }

  /** `after` is what a one-shot resolution towards `outcome` leaves behind:
      a pending source takes the outcome, anything else is left alone. */
  predicate ResolvedTo<E(==)>(before: Option<Slot<E>>, after: Option<Slot<E>>, outcome: Slot<E>) {
    if IsPending(before) then after == Some(outcome) else after == before
  }

  /** `source?.TrySetResult(true)` / `source?.TrySetException(e)`: a null source
      is skipped and a completed source refuses the attempt. */
  function Try<E>(source: Option<Slot<E>>, a: Attempt<E>): (r: Option<Slot<E>>)
    ensures r.None? <==> source.None?
    ensures !IsPending(r)
    ensures !IsPending(source) ==> r == source
    ensures IsPending(source) ==> r == Some(Target(a))
  {
    match source
    case Some(Pending) => Some(Target(a))
    case _ => source
  }

  /** A sequence of attempts, applied in order. */
  function TryAll<E>(source: Option<Slot<E>>, attempts: seq<Attempt<E>>): Option<Slot<E>>
    decreases |attempts|
  {
    if attempts == [] then source else TryAll(Try(source, attempts[0]), attempts[1..])
  }

  /** A completed (or absent) source ignores every later attempt. */
  lemma {:induction false} NotPendingIsFinal<E>(source: Option<Slot<E>>, attempts: seq<Attempt<E>>)
    requires !IsPending(source)
    ensures TryAll(source, attempts) == source
    decreases |attempts|
  {
    if attempts != [] {
      NotPendingIsFinal(Try(source, attempts[0]), attempts[1..]);
    }
  }

  /** First resolution wins: a pending source ends in the state the first
      attempt asked for, whatever the later attempts ask. */
  lemma {:induction false} FirstAttemptWins<E>(source: Option<Slot<E>>, attempts: seq<Attempt<E>>)
    requires IsPending(source)
    requires |attempts| > 0
    ensures TryAll(source, attempts) == Some(Target(attempts[0]))
  {
    NotPendingIsFinal(Try(source, attempts[0]), attempts[1..]);
  }
}

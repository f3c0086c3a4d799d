/**
 * The `order` slice of the application state: the order on screen, a
 * loading flag and an error message, and the five reducers that change them.
 */
module OrderSlice {
  import opened Wrappers
  import opened OrderStorage

  datatype OrderState = OrderState(currentOrder: Option<StoredOrder>, loading: bool, error: Option<string>)

  /** No order, not loading, no error. */
  const InitialOrderState := OrderState(None, false, None)

  /** The slice's actions, one per reducer. */
  datatype OrderAction =
    | SetOrder(order: StoredOrder)
    | ClearOrder
    | SetLoading(loading: bool)
    | SetError(message: string)
    | ClearError

  /**
   * The reducer, stated field by field: which actions write each field and
   * with what; every other action leaves the field as it was.
   */
  function Reduce(s: OrderState, a: OrderAction): (r: OrderState)
    ensures r.currentOrder == match a
      case SetOrder(o) => Some(o)
      case ClearOrder => None
      case _ => s.currentOrder
    ensures r.loading == match a
      case SetLoading(b) => b
      case SetError(_) => false
      case _ => s.loading
    ensures r.error == match a
      case SetOrder(_) => None
      case ClearOrder => None
      case SetError(m) => Some(m)
      case ClearError => None
      case SetLoading(_) => s.error
  {
    match a
    case SetOrder(o) => s.(currentOrder := Some(o), error := None)
    case ClearOrder => s.(currentOrder := None, error := None)
    case SetLoading(b) => s.(loading := b)
    case SetError(m) => s.(error := Some(m), loading := false)
    case ClearError => s.(error := None)
  }

  /** Actions applied one after another, as the store dispatches them. */
  function ReduceAll(s: OrderState, actions: seq<OrderAction>): OrderState
    decreases |actions|
  {
    if actions == [] then s else ReduceAll(Reduce(s, actions[0]), actions[1..])
  }

  /** Every reducer only assigns fields, so dispatching the same action twice is dispatching it once. */
  lemma ReduceIdempotent(s: OrderState, a: OrderAction)
    ensures Reduce(Reduce(s, a), a) == Reduce(s, a)
  {
  }

  /** Whatever was shown and loading, `clearOrder` after `setOrder` is `clearOrder` alone. */
  lemma ClearOrderForgetsSetOrder(s: OrderState, o: StoredOrder)
    ensures Reduce(Reduce(s, SetOrder(o)), ClearOrder) == Reduce(s, ClearOrder)
    ensures Reduce(s, ClearOrder).currentOrder.None? && Reduce(s, ClearOrder).error.None?
  {
  }

  /** An error always ends loading, and only `setLoading` starts it again. */
  lemma {:induction false} ErrorEndsLoading(s: OrderState, m: string, later: seq<OrderAction>)
    requires forall i :: 0 <= i < |later| ==> !later[i].SetLoading?
    ensures !ReduceAll(Reduce(s, SetError(m)), later).loading
  {
    NoLoadingStaysIdle(Reduce(s, SetError(m)), later);
  }

  lemma {:induction false} NoLoadingStaysIdle(s: OrderState, later: seq<OrderAction>)
    requires !s.loading
    requires forall i :: 0 <= i < |later| ==> !later[i].SetLoading?
    ensures !ReduceAll(s, later).loading
    decreases |later|
  {
    if later != [] {
      NoLoadingStaysIdle(Reduce(s, later[0]), later[1..]);
    }
  }

  /** The order on screen changes only through `setOrder` and `clearOrder`. */
  lemma {:induction false} OrderChangesOnlyBySetOrClear(s: OrderState, actions: seq<OrderAction>)
    requires forall i :: 0 <= i < |actions| ==> !actions[i].SetOrder? && !actions[i].ClearOrder?
    ensures ReduceAll(s, actions).currentOrder == s.currentOrder
    decreases |actions|
  {
    if actions != [] {
      OrderChangesOnlyBySetOrClear(Reduce(s, actions[0]), actions[1..]);
    }
  }
}

/**
 * The `products` slice of the application state: the listed products, a
 * loading flag and an error message, changed by two reducers and by the
 * three phases of the `fetchProducts` request.
 */
module ProductSlice {
  import opened Wrappers
  import opened Schema

  datatype ProductState = ProductState(items: seq<Product>, loading: bool, error: Option<string>)

  const InitialProductState := ProductState([], false, None)

  /** The message stored when the failed request carries none. */
  const FetchFailed := "Failed to fetch products"

  /**
   * The slice's actions. `Rejected` carries the thrown error's message, if
   * any; an empty message counts as none, as `||` treats it.
   */
  datatype ProductAction =
    | ClearError
    | ClearProducts
    | FetchPending
    | FetchFulfilled(products: seq<Product>)
    | FetchRejected(message: Option<string>)

  /** The error stored for a rejected fetch. */
  function RejectionMessage(message: Option<string>): (m: string)
    ensures m != []
    ensures message.Some? && message.value != [] ==> m == message.value
    ensures message.None? || message.value == [] ==> m == FetchFailed
  {
    match message
    case Some(x) => if x != [] then x else FetchFailed
    case None => FetchFailed
  }

  /** The reducer, stated field by field. */
  function Reduce(s: ProductState, a: ProductAction): (r: ProductState)
    ensures r.items == match a
      case ClearProducts => []
      case FetchFulfilled(ps) => ps
      case _ => s.items
    ensures r.loading == match a
      case FetchPending => true
      case FetchFulfilled(_) => false
      case FetchRejected(_) => false
      case _ => s.loading
    ensures r.error == match a
      case ClearError => None
      case FetchPending => None
      case FetchRejected(m) => Some(RejectionMessage(m))
      case _ => s.error
  {
    match a
    case ClearError => s.(error := None)
    case ClearProducts => s.(items := [])
    case FetchPending => s.(loading := true, error := None)
    case FetchFulfilled(ps) => s.(loading := false, items := ps)
    case FetchRejected(m) => s.(loading := false, error := Some(RejectionMessage(m)))
  }

  /** A fetch that starts and ends leaves the slice idle: loaded with no error, or failed with one. */
  lemma FetchSettles(s: ProductState, outcome: ProductAction)
    requires outcome.FetchFulfilled? || outcome.FetchRejected?
    ensures !Reduce(Reduce(s, FetchPending), outcome).loading
    ensures outcome.FetchFulfilled? ==>
      Reduce(Reduce(s, FetchPending), outcome) == ProductState(outcome.products, false, None)
    ensures outcome.FetchRejected? ==>
      && Reduce(Reduce(s, FetchPending), outcome).items == s.items
      && Reduce(Reduce(s, FetchPending), outcome).error.Some?
      && Reduce(Reduce(s, FetchPending), outcome).error.value != []
  {
  }

  /** The two reducers touch disjoint fields, so their order does not matter. */
  lemma ClearsCommute(s: ProductState)
    ensures Reduce(Reduce(s, ClearError), ClearProducts) == Reduce(Reduce(s, ClearProducts), ClearError)
    ensures Reduce(Reduce(s, ClearError), ClearProducts) == s.(items := [], error := None)
  {
  }
}

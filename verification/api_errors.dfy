/**
  The error hierarchy of the scheduling client, and how an `except` chain picks
  the clause that handles a raised error.

  Every client error is a `CalendlyAPIError`; the specialised ones are
  subclasses, so a handler for the base class also catches them. Errors that
  are not client errors (a missing key, a value of the wrong type, an
  unparsable time) are `Unexpected`: only a bare `except Exception` sees them.
 */
module ApiErrors {
  import opened Wrappers

  /** The subclass of `CalendlyAPIError` raised; `Generic` is the base class itself. */
  datatype ErrorKind = Auth | NotFound | RateLimit | Timeout | Connection | Generic

  /** A raised client error: its class and its message (what `str(e)` shows). */
  datatype ApiError = ApiError(kind: ErrorKind, message: string)

  /** Anything an operation may raise. */
  datatype Failure = Api(err: ApiError) | Unexpected(detail: string)

  /** The classes named in `except` clauses in this code. */
  datatype Clause = CatchAuth | CatchRateLimit | CatchApiError | CatchException

  /** `isinstance(f, clause)` under the class hierarchy. */
  predicate Catches(clause: Clause, f: Failure) {
    match clause
    case CatchAuth => f.Api? && f.err.kind == Auth
    case CatchRateLimit => f.Api? && f.err.kind == RateLimit
    case CatchApiError => f.Api?
    case CatchException => true
  }

  /** Python's `str(e)` of a raised failure. */
  function Describe(f: Failure): string {
    match f
    case Api(e) => e.message
    case Unexpected(d) => d
  }

  /** The index of the first clause in `chain` that handles `f`, as Python tries them top to bottom. */
  function Handler(chain: seq<Clause>, f: Failure): (r: Option<nat>)
    ensures r.Some? ==> r.value < |chain| && Catches(chain[r.value], f)
    ensures r.Some? ==> forall i :: 0 <= i < r.value ==> !Catches(chain[i], f)
    ensures r.None? ==> forall i :: 0 <= i < |chain| ==> !Catches(chain[i], f)
  {
    if chain == [] then None
    else if Catches(chain[0], f) then Some(0)
    else match Handler(chain[1..], f)
      case None => None
      case Some(i) => Some(i + 1)
  }

  /**
    A base-class clause placed before a subclass clause shadows it: the
    subclass handler is never chosen. This is why the specialised clauses
    come first in every chain of the booking service.
   */
  lemma BaseClauseShadowsSubclass(chain: seq<Clause>, f: Failure, i: nat, j: nat)
    requires i < j < |chain| && chain[i] == CatchApiError
    requires chain[j] == CatchAuth || chain[j] == CatchRateLimit
    ensures Handler(chain, f) != Some(j)
  {
  }
}

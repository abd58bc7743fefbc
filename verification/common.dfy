/**
  Shared vocabulary of the model: the optional and failure-carrying results
  that stand for Python's `None` and raised exceptions, the error kinds the
  pipeline can raise, and the exact real-number versions of the numeric
  helpers (`floor`, `ceil`, `int()`, `abs`, `max`, `min`) it relies on.
 */
module Common {

  datatype Option<T> = None | Some(value: T)

  /** The exceptions the modelled code can raise, one per cause. */
  datatype Error =
    | LabelNotInSet(name: string)  // `label_set.index(label)` raises ValueError
    | NonIntegerHop                 // `assert (clip_hop*sr).is_integer()`
    | NegativeAmpLow                // `assert amp_aug_low_r >= 0`
    | InvertedAmpRange              // `assert amp_aug_low_r <= amp_aug_high_r`
    | EmptyOffsetRange              // `rng.integers(0, high)` with `high <= 0`
    | ZeroHop                       // float floor division by a zero hop
    | IndexOutOfRange               // numpy write outside an array
    | DivisionByZero                // `1./n_classes` with no classes
    | ShapeMismatch                 // `np.stack` over rows of different lengths
    | ReflectPadTooLarge            // reflect padding at least as long as the input
    | EmptyArgmin                   // `np.argmin` of an empty array
    | BadArgumentCount              // a call with more positional arguments than the callee takes
    | MissingAttribute              // reading an attribute the object does not have
    | PadDimension                  // reflect padding of a tensor with too few dimensions

  datatype Result<T> = Ok(value: T) | Err(error: Error)

  function Abs(x: real): real {
    if x < 0.0 then -x else x
  }

  function Max(a: real, b: real): real {
    if a < b then b else a
  }

  function Min(a: real, b: real): real {
    if a < b then a else b
  }

  /** `math.floor` / `np.floor` on an exact real. */
  function Floor(x: real): int {
    x.Floor
  }

  /** `math.ceil` / `np.ceil` on an exact real. */
  function Ceil(x: real): int {
    -((-x).Floor)
  }

  /** Python's `int(x)` on a float: truncation toward zero. */
  function Trunc(x: real): int {
    if x < 0.0 then -((-x).Floor) else x.Floor
  }

  /** Python's `float.is_integer()`. */
  predicate IsInteger(x: real) {
    x.Floor as real == x
  }

  /** Inserting into a set-like container: an element already present is not added again. */
  function AddUnique<T(==)>(s: seq<T>, x: T): seq<T> {
    if x in s then s else s + [x]
  }

  predicate NoDuplicates<T(==)>(s: seq<T>) {
    forall i, j :: 0 <= i < j < |s| ==> s[i] != s[j]
  }

  /** Multiplying by a positive real keeps a strict order. */
  lemma MulStrict(a: real, b: real, c: real)
    requires a < b && c > 0.0
    ensures a * c < b * c
  {
  }
}

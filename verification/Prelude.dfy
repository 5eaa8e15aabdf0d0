/** Small types and list helpers shared by the models. */
module Prelude {
  datatype Option<+T> = None | Some(value: T)

  /** The suffix of `q` that a bound of `n` leaves: everything when it fits. */
  function LastN<T>(q: seq<T>, n: nat): (r: seq<T>)
    ensures |r| == if |q| <= n then |q| else n
    ensures r == q[|q| - |r|..]
  {
    if |q| <= n then q else q[|q| - n..]
  }
}

/** What several of the models share. */
module Prelude {

  datatype Option<+T> = None | Some(value: T)

  /** Instants are nanoseconds. Go's zero `time.Time` is 0: `IsZero` is what rate limits and TTLs ask. */
  const ZERO_TIME := 0

  lemma Regroup<T>(a: seq<T>, b: seq<T>, c: seq<T>)
    ensures (a + b) + c == a + (b + c)
  {
  }

  lemma ProductOrder(a: nat, b: nat, factor: nat)
    ensures a <= b ==> a * factor <= b * factor
  {
  }
}

/** Small shared vocabulary: optional values, HTTP replies and time units. */
module Common {

  datatype Option<T> = None | Some(value: T)

  /** What a route handler sends back: a status code, with a body on success. */
  datatype Reply<T> = Success(code: nat, body: T) | Failure(code: nat)

  /** Milliseconds since the epoch, as `Date.now()` returns them. */
  type Millis = int

  const DayMs: int := 1000 * 60 * 60 * 24

  /** JavaScript truthiness of an optional string: absent and `""` are falsy. */
  predicate Truthy(s: Option<string>) {
    s.Some? && s.value != ""
  }

  /** Scaling by a non-negative factor keeps the order. */
  lemma ScaleMonotone(a: int, b: int, k: nat)
    requires a <= b
    ensures a * k <= b * k
  {
    assert b * k - a * k == (b - a) * k;
  }
}

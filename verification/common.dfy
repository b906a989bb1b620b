/** Values shared by every part of the model: Java's nullable references and
    the exceptions the services throw become these datatypes. */
module Common {

  /** A Java reference that may be null (`None`), or an `Optional`. */
  datatype Option<+T> = None | Some(value: T)

  /** The outcome of an operation that either returns a value or throws. */
  datatype Result<+T, +E> = Success(value: T) | Failure(error: E)

  /** The outcome of a `void` operation that either returns normally or throws. */
  datatype Outcome<+E> = Pass | Fail(error: E)

  /** Entity identifiers (the source uses random UUIDs; only equality matters here). */
  type Uuid = nat

  /** Two different members make a set larger than one. */
  lemma SingletonOrMore<T>(s: set<T>, a: T, b: T)
    requires a in s && b in s && a != b
    ensures |s| > 1
  {
    assert {a, b} <= s;
    assert |s - {a, b}| + 2 == |s|;
  }
}

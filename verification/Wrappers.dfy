/** Results and bytes shared by the components. */
module Wrappers {

  datatype Option<+T> = None | Some(value: T)

  datatype Result<+T> = Ok(value: T) | Err(raison: string)

  /** One byte of a Go `[]byte`. */
  type Octet = b: int | 0 <= b < 256

  type Octets = seq<Octet>

  /** Concatenation is associative; stated, because the verifier does not see it unprompted. */
  lemma Associe<T>(a: seq<T>, b: seq<T>, c: seq<T>)
    ensures a + b + c == a + (b + c)
  {
  }
}

/** bcrypt, seen only through its two entry points. Salt generation and the
    cost factor are not modelled: `hash` is any function and `compare` any
    predicate, and the only property the model relies on is `Sound`. */
module Hashing {
  import opened Wrappers

  /** `compare` receives the stored hash as read from the user row, which is
      `None` for an account created by a federated login; what bcrypt does
      with such a value is left to the parameter. */
  datatype Hasher = Hasher(hash: string -> string, compare: (string, Option<string>) -> bool)

  /** A password always matches a hash computed from it. */
  ghost predicate Sound(h: Hasher)
  {
    forall p :: h.compare(p, Some(h.hash(p)))
  }
}

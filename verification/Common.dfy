/** Types and text functions that several parts of the system share. */
module Common {

  datatype Option<T> = None | Some(value: T)

  type Tenant = nat

  /** A missing value is written like an empty text. */
  function Text(value: Option<string>): string {
    match value
    case None => ""
    case Some(text) => text
  }

  function Join(parts: seq<string>, separator: string): string {
    if parts == [] then ""
    else if |parts| == 1 then parts[0]
    else parts[0] + separator + Join(parts[1..], separator)
  }

  lemma NextMultiple(q: int, d: int)
    ensures (q + 1) * d == q * d + d
  {
  }
}

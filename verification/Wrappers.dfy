/** What several modules share: a value that may be absent, and the id of a JSON-RPC message. */
module Wrappers {
  datatype Option<+T> = None | Some(value: T)

  datatype JsonId = Number(n: int) | Name(s: string)
}

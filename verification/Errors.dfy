/** The error list that the readers of one evaluation share. */
module Errors {
  class ErrorList<E> {
    var items: seq<E>

    constructor ()
      ensures items == []
    {
      items := [];
    }

    method Append(error: E)
      modifies this
      ensures items == old(items) + [error]
    {
      items := items + [error];
    }
  }

  /** Errors were only added since `before`, and one was added unless `fine`. */
  ghost predicate Grown<E>(before: seq<E>, after: seq<E>, fine: bool) {
    before <= after && (|after| == |before| <==> fine)
  }
}

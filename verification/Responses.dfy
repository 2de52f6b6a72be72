/** The values that steps consume and produce, and the response kept for each job
    (goroutine/type.go).  A value is nil, a slice or array, or anything else (an atom). */
module Responses {
  import opened Text

  datatype Value = Nil | Atom(id: int) | List(items: seq<Value>)

  datatype Error = Failure(code: int) | CanceledBeforeExecute

  datatype Response = Response(output: Value, err: Option<Error>, isExecute: bool)
  {
    predicate Succeeded() { isExecute && err.None? }
    predicate Failed() { isExecute && err.Some? }
  }

  /** Go's zero Response, found in slots that no job has filled. */
  const ZERO: Response := Response(Nil, None, false)

  /** What the dispatch loop records for a job it does not launch. */
  const SKIPPED: Response := Response(Nil, Some(CanceledBeforeExecute), false)
}

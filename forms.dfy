/** What a form's `submit` handler decides: show an error message, or hand a payload to its callback. */
module Forms {
  import opened Wrappers

  datatype SubmitResult<P> = Error(message: string) | Submit(payload: P)

  /** The error the card shows after the attempt: `setError(null)` first, then the message if any. */
  function ShownError<P>(r: SubmitResult<P>): (e: Option<string>)
    ensures e.Some? <==> r.Error?
  {
    match r
    case Error(msg) => Some(msg)
    case Submit(_) => None
  }

  /** The calls the attempt makes to the card's callback: exactly one on success, none otherwise. */
  function Handed<P>(r: SubmitResult<P>): (calls: seq<P>)
    ensures |calls| <= 1 && (|calls| == 1 <==> r.Submit?)
  {
    match r
    case Error(_) => []
    case Submit(p) => [p]
  }
}

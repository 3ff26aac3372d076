/** Shapes shared by every layer of the backend. */
module Common {

  datatype Option<+T> = None | Some(value: T) {
    function GetOr(default: T): T {
      match this
      case Some(v) => v
      case None => default
    }
  }

  /** The `{ success: true, data } | { success: false, error }` value every service returns. */
  datatype ServiceResult<+T> = Success(data: T) | Failure(error: string)

  /** How an awaited service call settles: it returns a value, or it throws. */
  datatype Completion<+T> = Returned(value: T) | Threw(exception: string)

  /** The result of a Zod `safeParse`: the parsed data, or the issues in the order they were found. */
  datatype SafeParse<+T> = ParseOk(data: T) | ParseError(firstIssue: string, moreIssues: seq<string>)

  /** Builds a `safeParse` result from the issues a schema collected. */
  function FromIssues<T>(issues: seq<string>, data: T): (r: SafeParse<T>)
    ensures r.ParseOk? <==> issues == []
    ensures r.ParseOk? ==> r.data == data
    ensures r.ParseError? ==> [r.firstIssue] + r.moreIssues == issues
  {
    if issues == [] then ParseOk(data) else ParseError(issues[0], issues[1..])
  }
}

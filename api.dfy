/** The REST collaborator as the pages see it: the requests they issue, the
    outcomes a request can settle with, the error text built from a failed
    response, and the route parameter that selects edit mode. */
module Api {
  import opened JsRuntime

  const ApiBaseUrl := "http://localhost:3000"

  datatype Method = GET | POST | PATCH | DELETE

  /** One `fetch` call: method, full URL and the JSON body, if any. */
  datatype Request<B> = Request(verb: Method, url: string, body: Option<B>)

  /** The `message` field of a parsed error body. A missing field and every
      other falsy value are `NoMessage`. */
  datatype MessageField = NoMessage | Text(text: string) | Lines(lines: seq<string>)

  /** The body of a non-OK response: either it is not JSON at all, or it is a
      JSON object with (or without) a `message` field. */
  datatype ErrorBody = Unparseable | Parsed(message: MessageField)

  /** What a rejected promise carries: an `Error` with its message, or some
      other value. */
  datatype Thrown = ErrorObject(message: string) | NonError

  /** How a request settles: an OK response with its decoded data, a non-OK
      status with its body, or a rejection (network failure, bad JSON in an
      OK response). */
  datatype Response<T> =
    | Success(data: T)
    | HttpFailure(status: nat, body: ErrorBody)
    | Rejected(reason: Thrown)

  /** The placeholder each page substitutes when the error body is not JSON. */
  const UnparseableBodyMessage := "Unknown error occurred."

  const StatusPrefix := "HTTP error! status: "

  /** How an array `message` becomes text on the fetch and delete paths:
      `new Error(array)` converts it with `Array.prototype.toString`. */
  const ErrorConversionSeparator := ","

  /** How an array `message` becomes text on the two save paths. */
  const SaveSeparator := "; "

  /** The text of `errorData.message || "HTTP error! status: N"` once an
      array message is turned into text with `listSeparator`. */
  function ServerMessage(status: nat, body: ErrorBody, listSeparator: string): (r: string)
    ensures body.Unparseable? ==> r == UnparseableBodyMessage
    ensures body.Parsed? && body.message.Text? && body.message.text != "" ==> r == body.message.text
    ensures body.Parsed? && body.message.Lines? ==> r == Join(body.message.lines, listSeparator)
    ensures !(body.Parsed? && body.message.Lines?) ==> r != ""
  {
    match body
    case Unparseable => UnparseableBodyMessage
    case Parsed(NoMessage) => StatusPrefix + NatToString(status)
    case Parsed(Text(t)) => if t == "" then StatusPrefix + NatToString(status) else t
    case Parsed(Lines(lines)) => Join(lines, listSeparator)
  }

  /** The value a page's `catch` receives when `response` did not succeed:
      the `Error` the page threw for a non-OK status, or the rejection. */
  function Caught<T>(response: Response<T>, listSeparator: string): (r: Thrown)
    requires !response.Success?
    ensures response.HttpFailure? ==> r == ErrorObject(ServerMessage(response.status, response.body, listSeparator))
    ensures response.Rejected? ==> r == response.reason
    ensures r.NonError? <==> response == Rejected(NonError)
  {
    match response
    case HttpFailure(status, body) => ErrorObject(ServerMessage(status, body, listSeparator))
    case Rejected(reason) => reason
  }

  /** `${err.message}` inside a template: a value that is not an `Error` has
      no message and prints as "undefined". */
  function MessageText(t: Thrown): (r: string)
    ensures t.ErrorObject? ==> r == t.message
    ensures t.NonError? ==> r == "undefined"
  {
    match t
    case ErrorObject(m) => m
    case NonError => "undefined"
  }

  /** The message a list page's delete handler reports:
      `err instanceof Error ? err.message : 'An unknown error occurred'`. */
  function DeleteFailureMessage(response: Response<()>): (r: string)
    requires !response.Success?
    ensures response.HttpFailure? ==> r == ServerMessage(response.status, response.body, ErrorConversionSeparator)
    ensures response.Rejected? && response.reason.ErrorObject? ==> r == response.reason.message
    ensures response == Rejected(NonError) ==> r == "An unknown error occurred"
  {
    match Caught(response, ErrorConversionSeparator)
    case ErrorObject(m) => m
    case NonError => "An unknown error occurred"
  }

  /** The id a form page edits: `id = paramId ? parseInt(paramId, 10) :
      undefined` and edit mode is `!!id`, so an absent, empty, unparseable
      or zero parameter means create mode. */
  function EditId(paramId: Option<string>): (id: Option<int>)
    ensures id.Some? <==> paramId.Some? && Truthy(ParseInt(paramId.value))
    ensures id.Some? ==> ParseInt(paramId.value) == Int(id.value)
  {
    match paramId
    case None => None
    case Some(p) => if p != "" && Truthy(ParseInt(p)) then Some(ParseInt(p).n) else None
  }

  /** Whatever the status, the fallback message names it: the text after the
      prefix reads back as the status. */
  lemma StatusRecoverable(status: nat, body: ErrorBody, listSeparator: string)
    requires body == Parsed(NoMessage) || body == Parsed(Text(""))
    ensures var m := ServerMessage(status, body, listSeparator);
      |m| > |StatusPrefix| && m[..|StatusPrefix|] == StatusPrefix &&
      ParseInt(m[|StatusPrefix|..]) == Int(status)
  {
    var m := ServerMessage(status, body, listSeparator);
    assert m[|StatusPrefix|..] == NatToString(status);
    ParseIntRoundTrip(status);
  }

  /** The fetch/delete paths and the save paths word a server message the
      same way exactly when it is not an array of two or more lines. */
  lemma SeparatorsDiffer(status: nat, body: ErrorBody)
    ensures ServerMessage(status, body, ErrorConversionSeparator) == ServerMessage(status, body, SaveSeparator)
        <==> !(body.Parsed? && body.message.Lines? && |body.message.lines| >= 2)
  {
    if body.Parsed? && body.message.Lines? && |body.message.lines| >= 2 {
      var lines := body.message.lines;
      JoinLength(lines, ErrorConversionSeparator);
      JoinLength(lines, SaveSeparator);
      assert |Join(lines, ErrorConversionSeparator)| < |Join(lines, SaveSeparator)|;
    }
  }

  /** The decimal text of a non-zero id, as a form link carries it, selects
      edit mode for that very id; the text of 0 selects create mode. */
  lemma EditIdRoundTrip(id: int)
    ensures EditId(Some(IntToString(id))) == if id == 0 then None else Some(id)
  {
    ParseIntRoundTrip(id);
  }
}

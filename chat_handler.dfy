/**
 * The `/chat` request handler of app.py. The collaborators it calls into
 * (the UTF-8 decoder, the vector index's similarity search and the
 * completion client) are parameters; every call the handler makes to the
 * index or to the completion service is recorded in a trace, so that "not
 * invoked" can be stated as an empty trace.
 */
module ChatHandler {
  import opened Wrappers
  import opened Text
  import opened Prompt

  newtype byte = x: int | 0 <= x < 256

  /** An uploaded file part: its client-side name and its raw bytes. */
  datatype Upload = Upload(filename: string, bytes: seq<byte>)

  /** `bytes.decode('utf-8')`: the text, or the message of the decode error. */
  type Decoder = seq<byte> -> Result<string>

  /** `db.similarity_search(query, k)`: the page contents of at most k passages, best first. */
  type SearchFn = (string, nat) -> Result<seq<string>>

  /** `client.chat.completions.create(messages=..., model=...)`: the first choice's text. */
  type CompleteFn = (seq<Turn>, string) -> Result<string>

  /**
   * What the handler reads from process-wide state set up at start-up: the
   * completion client (absent when its construction failed) and the vector
   * index (absent when no index was found on disk), plus the decoder.
   */
  datatype Backend = Backend(client: Option<CompleteFn>, index: Option<SearchFn>, decode: Decoder)

  /** One POST to `/chat`: the `message` form field and the `file` part, each possibly missing. */
  datatype Request = Request(form: Option<string>, file: Option<Upload>)

  const TopK: nat := 3
  const QueryLimit: nat := 1000
  const Model: string := "llama-3.3-70b-versatile"

  const ClientNotInitialized: string := "Groq client not initialized. Check API key."
  const NoInput: string := "No message or file provided"
  const UnsupportedFile: string := "Unsupported file type. Please upload a .txt file."

  /** A call into an external service, in the order the handler makes them. */
  datatype Call =
    | SimilaritySearch(query: string, k: nat)
    | ChatCompletion(messages: seq<Turn>, model: string)

  /** Where the handler ends up before the completion call. */
  datatype Outcome =
    | Err500(error: string)
    | Err400(error: string)
    | Info200(response: string)
    | Complete(messages: seq<Turn>)

  datatype Decision = Decision(outcome: Outcome, calls: seq<Call>)

  /** The JSON payload: `{"response": ...}` or `{"error": ...}`. */
  datatype Body = ResponseField(response: string) | ErrorField(error: string)

  datatype Response = Response(status: nat, body: Body)

  /** The HTTP reply together with the trace of external calls made to produce it. */
  datatype Exchange = Exchange(response: Response, calls: seq<Call>)

  /** `request.form.get("message", "")`. */
  function MessageField(form: Option<string>): string
  {
    form.GetOr("")
  }

  /** The law context obtained for one query, or the error retrieval raised. */
  datatype Retrieval = Retrieval(context: Result<string>, calls: seq<Call>)

  /** `if db: results = db.similarity_search(query, k=3) ...`, then the context block. */
  function Retrieve(index: Option<SearchFn>, query: string): (r: Retrieval)
    ensures index.None? ==> r == Retrieval(Success(NoLawFound), [])
    ensures index.Some? ==> r.calls == [SimilaritySearch(query, TopK)]
    ensures index.Some? ==>
      r.context == match index.value(query, TopK)
                   case Failure(e) => Failure(e)
                   case Success(passages) => Success(LawContext(passages))
  {
    match index
    case None => Retrieval(Success(LawContext([])), [])
    case Some(search) =>
      var calls := [SimilaritySearch(query, TopK)];
      match search(query, TopK)
      case Failure(e) => Retrieval(Failure(e), calls)
      case Success(passages) => Retrieval(Success(LawContext(passages)), calls)
  }

  /** The query used for an uploaded document: its first 1000 characters. */
  function DocumentQuery(content: string): (q: string)
    ensures |q| == Min(QueryLimit, |content|)
    ensures StartsWith(content, q)
  {
    Truncate(content, QueryLimit)
  }

  /** The message list: the system turn, then one user turn. */
  function Messages(userPrompt: string): seq<Turn>
  {
    [SystemTurn, Turn("user", userPrompt)]
  }

  /** Lines 224-294 of the handler: validation, prompt composition and retrieval, up to the completion call. */
  function Decide(b: Backend, req: Request): (d: Decision)
    ensures b.client.None? ==> d == Decision(Err500(ClientNotInitialized), [])
    ensures d.outcome.Complete? ==>
      |d.outcome.messages| == 2 && d.outcome.messages[0] == SystemTurn && d.outcome.messages[1].role == "user"
    ensures |d.calls| <= 1
    ensures forall i :: 0 <= i < |d.calls| ==> d.calls[i].SimilaritySearch? && d.calls[i].k == TopK
  {
    if b.client.None? then Decision(Err500(ClientNotInitialized), [])
    else
      var message := MessageField(req.form);
      if message == "" && req.file.None? then Decision(Err400(NoInput), [])
      else
        match req.file
        case None =>
          var r := Retrieve(b.index, message);
          (match r.context
           case Failure(e) => Decision(Err500(e), r.calls)
           case Success(ctx) => Decision(Complete(Messages(QuestionPrompt(message, ctx))), r.calls))
        case Some(upload) =>
          if !HasTxtSuffix(upload.filename) then Decision(Info200(UnsupportedFile), [])
          else
            match b.decode(upload.bytes)
            case Failure(e) => Decision(Err500(e), [])
            case Success(content) =>
              var r := Retrieve(b.index, DocumentQuery(content));
              match r.context
              case Failure(e) => Decision(Err500(e), r.calls)
              case Success(ctx) =>
                Decision(Complete(Messages(DocumentPrompt(message, upload.filename, content, ctx))), r.calls)
  }

  /** The whole handler, lines 223-308: `Decide`, then the completion call and the JSON reply. */
  function Handle(b: Backend, req: Request): (x: Exchange)
    ensures x.response.status == 200 || x.response.status == 400 || x.response.status == 500
    ensures x.response.status == 200 <==> x.response.body.ResponseField?
  {
    var d := Decide(b, req);
    match d.outcome
    case Err500(e) => Exchange(Response(500, ErrorField(e)), d.calls)
    case Err400(e) => Exchange(Response(400, ErrorField(e)), d.calls)
    case Info200(m) => Exchange(Response(200, ResponseField(m)), d.calls)
    case Complete(messages) =>
      var calls := d.calls + [ChatCompletion(messages, Model)];
      match b.client.value(messages, Model)
      case Success(text) => Exchange(Response(200, ResponseField(text)), calls)
      case Failure(e) => Exchange(Response(500, ErrorField(e)), calls)
  }

  /**
   * The handler as app.py writes it: early returns for each rejection, the
   * message list started with the system turn and extended by one user turn,
   * and each external call appended to the trace just before it is made.
   */
  method Chat(b: Backend, req: Request) returns (x: Exchange)
    ensures x == Handle(b, req)
  {
    if b.client.None? {
      return Exchange(Response(500, ErrorField(ClientNotInitialized)), []);
    }
    var message := MessageField(req.form);
    var file := req.file;
    if message == "" && file.None? {
      return Exchange(Response(400, ErrorField(NoInput)), []);
    }
    var calls: seq<Call> := [];
    var messages := [SystemTurn];
    if file.None? {
      var lawContext := "";
      if b.index.Some? {
        calls := calls + [SimilaritySearch(message, TopK)];
        var results := b.index.value(message, TopK);
        if results.Failure? {
          return Exchange(Response(500, ErrorField(results.error)), calls);
        }
        if results.value != [] {
          lawContext := Join(results.value, PassageSeparator);
        }
      }
      var enhancedPrompt := QuestionPrompt(message, if lawContext != "" then lawContext else NoLawFound);
      messages := messages + [Turn("user", enhancedPrompt)];
      assert messages == Messages(enhancedPrompt);
      assert Decide(b, req) == Decision(Complete(messages), calls);
    } else {
      var filename := file.value.filename;
      var fileBytes := file.value.bytes;
      if HasTxtSuffix(filename) {
        var decoded := b.decode(fileBytes);
        if decoded.Failure? {
          return Exchange(Response(500, ErrorField(decoded.error)), calls);
        }
        var fileContent := decoded.value;
        var lawContext := "";
        if b.index.Some? {
          var query := DocumentQuery(fileContent);
          calls := calls + [SimilaritySearch(query, TopK)];
          var results := b.index.value(query, TopK);
          if results.Failure? {
            return Exchange(Response(500, ErrorField(results.error)), calls);
          }
          if results.value != [] {
            lawContext := Join(results.value, PassageSeparator);
          }
        }
        var context := if lawContext != "" then lawContext else NoLawFound;
        assert Retrieve(b.index, DocumentQuery(fileContent)) == Retrieval(Success(context), calls);
        var fullPrompt := DocumentPrompt(message, filename, fileContent, context);
        messages := messages + [Turn("user", fullPrompt)];
        assert messages == Messages(fullPrompt);
        assert Decide(b, req) == Decision(Complete(messages), calls);
      } else {
        return Exchange(Response(200, ResponseField(UnsupportedFile)), calls);
      }
    }
    calls := calls + [ChatCompletion(messages, Model)];
    var completion := b.client.value(messages, Model);
    if completion.Failure? {
      return Exchange(Response(500, ErrorField(completion.error)), calls);
    }
    return Exchange(Response(200, ResponseField(completion.value)), calls);
  }
}

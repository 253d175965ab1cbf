/** The diagram-generation endpoint (app/api/generate-map/route.ts): the
    decisions `POST` takes on a parsed request body. Reading the body, the
    generator and the HTTP reply object are parameters or plain values here. */
module GenerateMapRoute {
  import opened Wrappers
  import opened Text
  import opened Types
  import opened DiagramConverter
  import opened AiClient

  /** A value thrown inside the handler: an `Error` carrying its message, or any other value. */
  datatype Thrown = ErrorObject(message: string) | NonErrorValue

  /** A reply of the endpoint: its HTTP status and its JSON body. */
  datatype Reply = Reply(status: int, body: MapGenerationResponse)

  const TopicRequired: string := "Topic is required"
  const InvalidMapType: string := "Invalid map type"
  const UnexpectedError: string := "An unexpected error occurred while generating the diagram"

  /** The message the catch-all reply carries for a thrown value. */
  function ErrorMessage(e: Thrown): string {
    match e
    case ErrorObject(message) => message
    case NonErrorValue => UnexpectedError
  }

  /** The reply to a request that fails input validation: no diagram field at all. */
  function BadRequest(message: string): Reply {
    Reply(400, MapGenerationResponse(None, false, Some(message)))
  }

  /** The reply of the catch-all handler: an empty diagram and the message. */
  function Failure(e: Thrown): Reply {
    Reply(500, MapGenerationResponse(Some(""), false, Some(ErrorMessage(e))))
  }

  /** The topic check passes: a topic is present and is not blank once trimmed. */
  predicate TopicGiven(topic: Option<string>) {
    topic.Some? && Trim(topic.value) != ""
  }

  /** The map type is one of the four tokens, spelled exactly. */
  predicate MapTypeGiven(mapType: Option<string>) {
    mapType.Some? && ParseMapType(mapType.value).Some?
  }

  /** The outcome of input validation: a 400 reply, or the generator's options. */
  datatype Admission = Rejected(reply: Reply) | Admitted(options: GenerateOptions)

  /** Input validation: the topic is checked first, then the map type; an
      admitted request hands the trimmed topic, the trimmed description, the
      kind and the images on to the generator. */
  function Admit(body: MapGenerationRequest): (a: Admission)
    ensures a.Admitted? <==> TopicGiven(body.topic) && MapTypeGiven(body.mapType)
    ensures !TopicGiven(body.topic) ==> a == Rejected(BadRequest(TopicRequired))
    ensures TopicGiven(body.topic) && !MapTypeGiven(body.mapType) ==> a == Rejected(BadRequest(InvalidMapType))
    ensures a.Admitted? ==>
      && a.options.topic == Trim(body.topic.value)
      && a.options.topic != "" && IsTrimmed(a.options.topic)
      && MapTypeName(a.options.mapType) == body.mapType.value
      && (body.description.None? <==> a.options.description.None?)
      && (body.description.Some? ==> a.options.description.value == Trim(body.description.value))
      && a.options.images == body.images
  {
    if !TopicGiven(body.topic) then Rejected(BadRequest(TopicRequired))
    else if !MapTypeGiven(body.mapType) then Rejected(BadRequest(InvalidMapType))
    else
      var description := if body.description.Some? then Some(Trim(body.description.value)) else None;
      Admitted(GenerateOptions(Trim(body.topic.value), description,
        ParseMapType(body.mapType.value).value, body.images))
  }

  /** The generator consulted by the handler: a diagram text or a thrown value. */
  type Generator = GenerateOptions -> Result<string, Thrown>

  /** `POST`: `parsed` is the outcome of reading the JSON body, `generate`
      the diagram generator. */
  function Post(parsed: Result<MapGenerationRequest, Thrown>, generate: Generator): (r: Reply)
    ensures r.status == 200 || r.status == 400 || r.status == 500
    ensures r.body.success <==> r.status == 200
    ensures r.body.success <==> r.body.error.None?
    ensures r.status == 400 <==> parsed.Ok? && Admit(parsed.value).Rejected?
    ensures r.status == 400 <==> r.body.mermaidCode.None?
    ensures r.status == 500 ==> r.body.mermaidCode == Some("")
    ensures parsed.Err? ==> r == Failure(parsed.error)
    ensures parsed.Ok? && Admit(parsed.value).Rejected? ==> r == Admit(parsed.value).reply
    ensures r.body.success ==>
      && parsed.Ok? && Admit(parsed.value).Admitted?
      && var mt := Admit(parsed.value).options.mapType;
      && MapTypeName(mt) == parsed.value.mapType.value
      && Accepts(r.body.mermaidCode.value, mt)
      && IsTrimmed(r.body.mermaidCode.value)
      && NoBlankRun(r.body.mermaidCode.value)
      && !Occurs(Fence, r.body.mermaidCode.value)
  {
    match parsed
    case Err(e) => Failure(e)
    case Ok(body) =>
      match Admit(body)
      case Rejected(reply) => reply
      case Admitted(o) =>
        match generate(o)
        case Err(e) => Failure(e)
        case Ok(code) =>
          match Prepare(code, o.mapType)
          case Err(message) => Failure(ErrorObject(message))
          case Ok(prepared) => Reply(200, MapGenerationResponse(Some(prepared), true, None))
  }

  /** A request that fails to parse or fails input validation never reaches
      the generator: the reply is the same whatever the generator. */
  lemma RejectedBeforeGenerating(parsed: Result<MapGenerationRequest, Thrown>, g1: Generator, g2: Generator)
    requires parsed.Err? || Admit(parsed.value).Rejected?
    ensures Post(parsed, g1) == Post(parsed, g2)
    ensures Post(parsed, g1).status != 200
  {
  }

  /** For an admitted request the reply depends on the generator's answer
      only: it succeeds exactly when the generated text passes the validator
      for the requested kind, and then carries the prepared text; a thrown
      generator error or a validator error becomes a 500 with its message. */
  lemma PostOutcome(body: MapGenerationRequest, generate: Generator)
    requires Admit(body).Admitted?
    ensures var o := Admit(body).options;
      var r := Post(Ok(body), generate);
      && (r.body.success <==> generate(o).Ok? && Accepts(Clean(generate(o).value), o.mapType))
      && (r.body.success ==> r.body.mermaidCode == Some(Enhance(Clean(generate(o).value))))
      && (generate(o).Err? ==> r == Failure(generate(o).error))
      && (generate(o).Ok? && !Accepts(Clean(generate(o).value), o.mapType) ==>
            r == Failure(ErrorObject(SyntaxMessage(o.mapType))))
  {
    var o := Admit(body).options;
    if generate(o).Ok? {
      var code := generate(o).value;
      var p := Prepare(code, o.mapType);
      assert p.Ok? ==> p.value == Enhance(Validate(code, o.mapType).value);
    }
  }

  // ---------------------------------------------------------------------
  // The endpoint wired to the model client
  // ---------------------------------------------------------------------

  /** The model client as the handler sees it: its fixed failure is thrown as an `Error`. */
  function ClientGenerator(oracle: TextRequest -> Option<string>): Generator {
    o => match Generate(o, oracle)
         case Ok(code) => Ok(code)
         case Err(message) => Err(ErrorObject(message))
  }

  /** The endpoint with the model client in place; `oracle` is the text-generation service. */
  function Serve(parsed: Result<MapGenerationRequest, Thrown>, oracle: TextRequest -> Option<string>): (r: Reply)
    ensures r.body.success ==>
      parsed.Ok? && Admit(parsed.value).Admitted? && oracle(TextRequestFor(Admit(parsed.value).options)).Some?
    ensures parsed.Ok? && Admit(parsed.value).Admitted? && oracle(TextRequestFor(Admit(parsed.value).options)).None? ==>
      r == Reply(500, MapGenerationResponse(Some(""), false, Some(GenerationFailed)))
  {
    Post(parsed, ClientGenerator(oracle))
  }

  /** End to end: an admitted request succeeds exactly when the service
      answers with a text whose cleaned form passes the validator for the
      requested kind, and the reply then carries that text prepared for
      rendering; when the service fails the reply is a 500 with the client's
      fixed message. */
  lemma ServeOutcome(body: MapGenerationRequest, oracle: TextRequest -> Option<string>)
    requires Admit(body).Admitted?
    ensures var o := Admit(body).options;
      var answer := oracle(TextRequestFor(o));
      var r := Serve(Ok(body), oracle);
      && (r.body.success <==> answer.Some? && Accepts(Clean(answer.value), o.mapType))
      && (r.body.success ==> r.body.mermaidCode == Some(Prepare(answer.value, o.mapType).value))
      && (answer.None? ==> r == Reply(500, MapGenerationResponse(Some(""), false, Some(GenerationFailed))))
  {
    var o := Admit(body).options;
    var answer := oracle(TextRequestFor(o));
    var g := ClientGenerator(oracle);
    PostOutcome(body, g);
    if answer.Some? {
      var text := answer.value;
      assert g(o) == Ok(Clean(text));
      CleanIdempotent(text);
    }
  }

  /** What the service is asked for an admitted request: the fixed model and
      temperature, and a prompt whose information lines carry the trimmed
      topic, a description line that is empty exactly when the description is
      absent or blank, and the image note. */
  lemma AdmittedPrompt(body: MapGenerationRequest)
    requires Admit(body).Admitted?
    ensures var o := Admit(body).options;
      && TextRequestFor(o).model == ModelName && TextRequestFor(o).temperature == Temperature
      && (exists k :: LineAt(TextRequestFor(o).prompt, k,
            TopicLine(Trim(body.topic.value)) + "\n" + DescriptionLine(o.description) + "\n" + ImageNote(body.images)))
      && (DescriptionLine(o.description) == "" <==> body.description.None? || Trim(body.description.value) == "")
  {
    var o := Admit(body).options;
    PromptHeader(o);
    DescriptionLineShows(o.description);
  }
}

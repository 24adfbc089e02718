/** The document-extraction endpoint (api/extract.js): pick the instruction
    for the document type, send it with the image to the model, strip the
    reply's code fences, parse it, and return the object with the original
    image echoed in `imagem_original`.

    `Respond` is the handler with the stray token of line 67 removed;
    `RespondAsWritten` is the handler as it stands, where that token throws
    before the model is reached. `Handle` writes `Respond`'s answer into the
    runtime's response object step by step, as the source does. */
module Extract {
  import opened Wrappers
  import opened JsText
  import opened Http
  import opened DataUri
  import opened Fences

  /** The request body fields the handler reads: `imageBase64` and `type`. */
  datatype ExtractRequest = ExtractRequest(imageBase64: Option<string>, docType: Option<string>)

  const MethodNotAllowed := "Método não permitido"
  const MissingImage := "Imagem ausente"
  const UnreadableReply := "Falha ao interpretar resposta da IA"
  const InternalFailure := "Falha interna"
  /** The message of the ReferenceError the stray `Q` throws. */
  const StrayTokenError := "Q is not defined"
  const ImagemOriginal := "imagem_original"

  /** The `PROMPTS` table. */
  const Prompts: map<string, Prompt> :=
    map["rg" := RgPrompt, "cnh" := CnhPrompt, "classe" := ClassePrompt, "endereco" := EnderecoPrompt]

  /** `PROMPTS[type] || PROMPTS.rg`: every prompt text is non-empty, so a
      key of the table selects its own prompt and anything else, an absent
      `type` included, selects the RG prompt. */
  function SelectPrompt(docType: Option<string>): (p: Prompt)
    ensures p in Prompts.Values && p != ComparePrompt
    ensures docType.Some? && docType.value in Prompts ==> p == Prompts[docType.value]
    ensures !(docType.Some? && docType.value in Prompts) ==> p == RgPrompt
  {
    if docType.Some? && docType.value in Prompts then Prompts[docType.value] else Prompts["rg"]
  }

  /** Distinct keys select distinct prompts, and only the key "rg" or a
      type outside the table selects the RG prompt. */
  lemma SelectPromptExact(docType: Option<string>)
    ensures SelectPrompt(docType) == RgPrompt <==> !(docType.Some? && docType.value in Prompts - {"rg"})
    ensures SelectPrompt(docType) == CnhPrompt <==> docType == Some("cnh")
    ensures SelectPrompt(docType) == ClassePrompt <==> docType == Some("classe")
    ensures SelectPrompt(docType) == EnderecoPrompt <==> docType == Some("endereco")
  {
  }

  /** Where the handler stands after the checks of lines 52-59: either it
      has answered, or it goes on with a non-empty image. */
  datatype Checked = Answered(response: Response) | Proceed(image: string)

  function Check(verb: string, req: ExtractRequest): (c: Checked)
    ensures c.Proceed? <==> verb == "POST" && Truthy(req.imageBase64)
    ensures c.Proceed? ==> c.image == req.imageBase64.value && c.image != ""
  {
    if verb == "OPTIONS" then Answered(Reply(200, NoBody))
    else if verb != "POST" then Answered(Reply(405, ErrorBody(MethodNotAllowed)))
    else if !Truthy(req.imageBase64) then Answered(Reply(400, ErrorBody(MissingImage)))
    else Proceed(req.imageBase64.value)
  }

  /** The catch block of lines 92-95: the error's message, or
      "Falha interna" when it has none. */
  function CaughtError(message: string): Response
  {
    Reply(500, ErrorBody(if message == "" then InternalFailure else message))
  }

  /** Lines 62-90 without line 67: clean the image, call the model once,
      strip the fences, parse, and echo the original image. */
  function Extracted(image: string, docType: Option<string>, backend: Backend, parse: Parser): (r: Response)
    ensures r.headers == CorsHeaders && r.body.JsonBody?
    ensures r.status == 200 || r.status == 500
    ensures r.status == 500 ==> r.body.obj.Keys == {"error"}
    ensures r.status == 200 ==>
              ImagemOriginal in r.body.obj && r.body.obj[ImagemOriginal] == Str(WrapDataUri(image))
  {
    match backend([Instruction(SelectPrompt(docType)), InlineData(CleanBase64(image), Jpeg)])
    case Failure(message) => CaughtError(message)
    case Answer(text) =>
      match parse(StripFences2Pass(text))
      case None => CaughtError(UnreadableReply)
      case Some(data) => Reply(200, JsonBody(data[ImagemOriginal := Str(WrapDataUri(image))]))
  }

  /** The handler with line 67 removed. */
  function Respond(verb: string, req: ExtractRequest, backend: Backend, parse: Parser): (r: Response)
    ensures r.headers == CorsHeaders
    ensures r.status in {200, 400, 405, 500}
    ensures r.body.NoBody? <==> verb == "OPTIONS"
    ensures r.status != 200 ==> r.body.JsonBody? && r.body.obj.Keys == {"error"}
    ensures r.status == 200 && verb != "OPTIONS" ==>
              r.body.JsonBody? && ImagemOriginal in r.body.obj
              && r.body.obj[ImagemOriginal].Str?
              && StartsWith(r.body.obj[ImagemOriginal].s, DataScheme)
  {
    match Check(verb, req)
    case Answered(r) => r
    case Proceed(image) => Extracted(image, req.docType, backend, parse)
  }

  /** The handler as written: once the checks pass, the stray `Q` on line 67
      throws a ReferenceError, which the catch block turns into a 500. */
  function RespondAsWritten(verb: string, req: ExtractRequest, backend: Backend, parse: Parser): (r: Response)
    ensures r.headers == CorsHeaders
  {
    match Check(verb, req)
    case Answered(r) => r
    case Proceed(_) => CaughtError(StrayTokenError)
  }

  // ---------------------------------------------------------------------
  // Properties of the handler.

  /** A preflight request is answered 200 with no body, and any method other
      than POST and OPTIONS with 405; neither depends on the body or the
      model. */
  lemma MethodDispatch(verb: string, req: ExtractRequest, backend: Backend, parse: Parser)
    ensures verb == "OPTIONS" ==> Respond(verb, req, backend, parse) == Response(200, CorsHeaders, NoBody)
    ensures verb != "OPTIONS" && verb != "POST" ==>
              Respond(verb, req, backend, parse) == Response(405, CorsHeaders, ErrorBody(MethodNotAllowed))
  {
  }

  /** A POST whose `imageBase64` is missing or empty is answered 400
      "Imagem ausente", whatever the model would have said. */
  lemma MissingImageRejected(req: ExtractRequest, backend1: Backend, backend2: Backend, parse: Parser)
    requires !Truthy(req.imageBase64)
    ensures Respond("POST", req, backend1, parse) == Response(400, CorsHeaders, ErrorBody(MissingImage))
    ensures Respond("POST", req, backend1, parse) == Respond("POST", req, backend2, parse)
  {
  }

  /** The model is asked once, with the selected instruction and then the
      cleaned image as JPEG; a reply that parses after fence stripping comes
      back with status 200: the parsed object, plus the original image
      re-wrapped as a data URI under `imagem_original`. */
  lemma ParsedReplyReturned(image: string, docType: Option<string>, backend: Backend, parse: Parser,
                            text: string, data: JsonObject)
    requires image != ""
    requires backend([Instruction(SelectPrompt(docType)), InlineData(CleanBase64(image), Jpeg)]) == Answer(text)
    requires parse(StripFences2Pass(text)) == Some(data)
    ensures var r := Respond("POST", ExtractRequest(Some(image), docType), backend, parse);
            && r == Response(200, CorsHeaders, JsonBody(data[ImagemOriginal := Str(WrapDataUri(image))]))
            && r.body.obj - {ImagemOriginal} == data - {ImagemOriginal}
  {
    var req := ExtractRequest(Some(image), docType);
    assert Check("POST", req) == Proceed(image);
    var echoed := data[ImagemOriginal := Str(WrapDataUri(image))];
    assert Extracted(image, docType, backend, parse) == Reply(200, JsonBody(echoed));
    OtherFieldsKept(data, Str(WrapDataUri(image)));
  }

  lemma OtherFieldsKept(data: JsonObject, echo: Json)
    ensures data[ImagemOriginal := echo] - {ImagemOriginal} == data - {ImagemOriginal}
  {
  }

  /** The echoed `imagem_original` carries the very payload that was sent
      to the model, whenever the input is a data URI or has no comma. */
  lemma EchoMatchesSentPayload(image: string, docType: Option<string>, backend: Backend, parse: Parser,
                               text: string, data: JsonObject)
    requires image != "" && (StartsWith(image, DataScheme) || ',' !in image)
    requires backend([Instruction(SelectPrompt(docType)), InlineData(CleanBase64(image), Jpeg)]) == Answer(text)
    requires parse(StripFences2Pass(text)) == Some(data)
    ensures var r := Respond("POST", ExtractRequest(Some(image), docType), backend, parse);
            && r.body.JsonBody? && ImagemOriginal in r.body.obj && r.body.obj[ImagemOriginal].Str?
            && CleanBase64(r.body.obj[ImagemOriginal].s) == CleanBase64(image)
  {
    EchoCarriesSentPayload(image);
  }

  /** A reply that does not parse after fence stripping gives 500 "Falha ao
      interpretar resposta da IA"; a failed model call gives 500 with the
      error's message, or "Falha interna" when the message is empty. */
  lemma FailuresReported(image: string, docType: Option<string>, backend: Backend, parse: Parser)
    requires image != ""
    ensures var outcome := backend([Instruction(SelectPrompt(docType)), InlineData(CleanBase64(image), Jpeg)]);
            var r := Respond("POST", ExtractRequest(Some(image), docType), backend, parse);
            && (outcome.Answer? && parse(StripFences2Pass(outcome.text)).None? ==>
                  r == Response(500, CorsHeaders, ErrorBody(UnreadableReply)))
            && (outcome.Failure? && outcome.message != "" ==>
                  r == Response(500, CorsHeaders, ErrorBody(outcome.message)))
            && (outcome == Failure("") ==>
                  r == Response(500, CorsHeaders, ErrorBody(InternalFailure)))
  {
  }

  /** As written, every POST carrying an image ends in the 500 of the stray
      token, and the model is never consulted. */
  lemma StrayTokenAlwaysFails(req: ExtractRequest, backend1: Backend, backend2: Backend, parse1: Parser, parse2: Parser)
    requires Truthy(req.imageBase64)
    ensures RespondAsWritten("POST", req, backend1, parse1) == Response(500, CorsHeaders, ErrorBody(StrayTokenError))
    ensures RespondAsWritten("POST", req, backend1, parse1) == RespondAsWritten("POST", req, backend2, parse2)
  {
  }

  /** The written handler and the corrected one agree on every request
      that does not reach line 67. */
  lemma StrayTokenOnlyPathDiffers(verb: string, req: ExtractRequest, backend: Backend, parse: Parser)
    ensures !(verb == "POST" && Truthy(req.imageBase64)) ==>
              RespondAsWritten(verb, req, backend, parse) == Respond(verb, req, backend, parse)
  {
  }

  /** A fenced reply for an image already given as a data URI, such as
      "data:image/jpeg;base64,AAAA" of type "rg": a model that answers
      "```json" + body + "```" and a parser that reads the trimmed body as
      `data`. The corrected handler answers 200 with `data` and the image
      echoed verbatim; the written one answers 500 "Q is not defined". */
  lemma FencedDataUriExample(image: string, docType: Option<string>, body: string, data: JsonObject,
                             backend: Backend, parse: Parser)
    requires StartsWith(image, DataScheme) && '`' !in body
    requires backend([Instruction(SelectPrompt(docType)), InlineData(CleanBase64(image), Jpeg)])
               == Answer(FenceJson + body + Fence)
    requires parse(Trim(body)) == Some(data)
    ensures Respond("POST", ExtractRequest(Some(image), docType), backend, parse)
              == Response(200, CorsHeaders, JsonBody(data[ImagemOriginal := Str(image)]))
    ensures RespondAsWritten("POST", ExtractRequest(Some(image), docType), backend, parse)
              == Response(500, CorsHeaders, ErrorBody(StrayTokenError))
  {
    FencedReplyUnwrapped(body);
    ParsedReplyReturned(image, docType, backend, parse, FenceJson + body + Fence, data);
    StrayTokenAlwaysFails(ExtractRequest(Some(image), docType), backend, backend, parse, parse);
  }

  // ---------------------------------------------------------------------
  // The handler as the source runs it: header writes, then the checks,
  // then the try block whose errors the catch block reports.

  method Handle(res: ResponseWriter, verb: string, req: ExtractRequest, backend: Backend, parse: Parser)
    requires !res.finished
    modifies res
    ensures res.finished
    ensures var r := Respond(verb, req, backend, parse);
            res.statusCode == r.status && res.body == r.body
            && res.headers == old(res.headers) + r.headers
  {
    ghost var expected := Respond(verb, req, backend, parse);
    CorsHeadersSet(res.headers);
    res.SetHeader(AllowOrigin, "*");
    res.SetHeader(AllowMethods, "POST, OPTIONS");
    res.SetHeader(AllowHeaders, "Content-Type");
    if verb == "OPTIONS" {
      res.Status(200);
      res.End();
      return;
    }
    if verb != "POST" {
      res.Status(405);
      res.SendJson(ErrorBody(MethodNotAllowed).obj);
      return;
    }

    // try
    if !Truthy(req.imageBase64) {
      res.Status(400);
      res.SendJson(ErrorBody(MissingImage).obj);
      return;
    }
    var imageBase64 := req.imageBase64.value;
    assert expected == Extracted(imageBase64, req.docType, backend, parse);
    var cleanBase64 := CleanBase64(imageBase64);
    var selectedPrompt := SelectPrompt(req.docType);
    var result := backend([Instruction(selectedPrompt), InlineData(cleanBase64, Jpeg)]);
    var thrown: string;
    if result.Failure? {
      thrown := result.message;
    } else {
      var jsonString := StripFences2Pass(result.text);
      var parsed := parse(jsonString);
      if parsed.None? {
        thrown := UnreadableReply;
      } else {
        var data := parsed.value;
        data := data[ImagemOriginal := Str(WrapDataUri(imageBase64))];
        res.Status(200);
        res.SendJson(data);
        return;
      }
    }

    // catch
    assert expected == CaughtError(thrown);
    res.Status(500);
    res.SendJson(ErrorBody(if thrown == "" then InternalFailure else thrown).obj);
  }
}

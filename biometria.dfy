/** The face-comparison endpoint (bioface/biometria-demo/api/biometria.js):
    in mode "compare" it sends the fixed forensic instruction and the two
    images, document first and selfie second, to the model, strips the
    reply's code fences and returns the parsed verdict as it is. Every
    failure is reported with one fixed message. */
module Biometria {
  import opened Wrappers
  import opened Http
  import opened DataUri
  import opened Fences

  /** The request body fields the handler reads. */
  datatype CompareRequest = CompareRequest(mode: Option<string>, image1: Option<string>, image2: Option<string>)

  const CompareMode := "compare"
  const MissingImages := "Faltam imagens para comparar"
  const InvalidMode := "Modo inválido ou não especificado"
  const ProcessingFailure := "Erro interno ao processar biometria"

  /** The parts of the one `generateContent` call: the instruction, the
      reference document, the live selfie, each image cleaned on its own. */
  function CompareParts(image1: string, image2: string): seq<Part>
  {
    [Instruction(ComparePrompt), InlineData(CleanBase64(image1), Jpeg), InlineData(CleanBase64(image2), Jpeg)]
  }

  /** Lines 45-59: call the model, strip the fences, parse; any error thrown
      on the way lands in the catch block's fixed 500. */
  function Compared(image1: string, image2: string, backend: Backend, parse: Parser): (r: Response)
    ensures r.headers == CorsHeaders && r.body.JsonBody?
    ensures r.status == 200 || r.status == 500
    ensures r.status == 500 ==> r.body == ErrorBody(ProcessingFailure)
  {
    match backend(CompareParts(image1, image2))
    case Failure(_) => Reply(500, ErrorBody(ProcessingFailure))
    case Answer(text) =>
      match parse(StripFencesAlt(text))
      case None => Reply(500, ErrorBody(ProcessingFailure))
      case Some(verdict) => Reply(200, JsonBody(verdict))
  }

  /** The handler. There is no method check: a request that is not a
      preflight is handled by its body whatever its method. */
  function Respond(verb: string, req: CompareRequest, backend: Backend, parse: Parser): (r: Response)
    ensures r.headers == CorsHeaders
    ensures r.status in {200, 400, 500}
    ensures r.body.NoBody? <==> verb == "OPTIONS"
    ensures r.status == 500 ==> r.body == ErrorBody(ProcessingFailure)
    ensures r.status == 400 ==> r.body == ErrorBody(MissingImages) || r.body == ErrorBody(InvalidMode)
  {
    if verb == "OPTIONS" then Reply(200, NoBody)
    else if req.mode == Some(CompareMode) then
      if !Truthy(req.image1) || !Truthy(req.image2) then Reply(400, ErrorBody(MissingImages))
      else Compared(req.image1.value, req.image2.value, backend, parse)
    else Reply(400, ErrorBody(InvalidMode))
  }

  // ---------------------------------------------------------------------
  // Properties of the handler.

  /** A preflight is answered 200 with no body; every other method, GET
      included, is treated like POST, never with 405. */
  lemma NoMethodCheck(verb1: string, verb2: string, req: CompareRequest, backend: Backend, parse: Parser)
    ensures Respond("OPTIONS", req, backend, parse) == Response(200, CorsHeaders, NoBody)
    ensures verb1 != "OPTIONS" && verb2 != "OPTIONS" ==>
              Respond(verb1, req, backend, parse) == Respond(verb2, req, backend, parse)
    ensures Respond(verb1, req, backend, parse).status != 405
  {
  }

  /** Any mode other than exactly "compare", an absent one included, is
      answered 400 and the model is not consulted. */
  lemma InvalidModeRejected(verb: string, req: CompareRequest, backend1: Backend, backend2: Backend, parse: Parser)
    requires verb != "OPTIONS" && req.mode != Some(CompareMode)
    ensures Respond(verb, req, backend1, parse) == Response(400, CorsHeaders, ErrorBody(InvalidMode))
    ensures Respond(verb, req, backend1, parse) == Respond(verb, req, backend2, parse)
  {
  }

  /** In compare mode a missing or empty image is answered 400 and the
      model is not consulted. */
  lemma MissingImagesRejected(verb: string, req: CompareRequest, backend1: Backend, backend2: Backend, parse: Parser)
    requires verb != "OPTIONS" && req.mode == Some(CompareMode)
    requires !Truthy(req.image1) || !Truthy(req.image2)
    ensures Respond(verb, req, backend1, parse) == Response(400, CorsHeaders, ErrorBody(MissingImages))
    ensures Respond(verb, req, backend1, parse) == Respond(verb, req, backend2, parse)
  {
  }

  /** Each image is cleaned on its own: the part sent for one image depends
      on that image alone, and swapping the images swaps the two parts. */
  lemma ImagesCleanedIndependently(image1: string, image2: string, other: string)
    ensures CompareParts(image1, image2)[1] == CompareParts(image1, other)[1]
    ensures CompareParts(image1, image2)[2] == CompareParts(other, image2)[2]
    ensures CompareParts(image2, image1) ==
              [CompareParts(image1, image2)[0], CompareParts(image1, image2)[2], CompareParts(image1, image2)[1]]
  {
  }

  /** The handler's answer depends on the model only through what it says
      to the three parts instruction, document, selfie: a parsed verdict is
      returned unchanged, with nothing added. */
  lemma VerdictReturnedUnchanged(verb: string, image1: string, image2: string, backend: Backend, parse: Parser,
                                 text: string, verdict: JsonObject)
    requires verb != "OPTIONS" && image1 != "" && image2 != ""
    requires backend([Instruction(ComparePrompt), InlineData(CleanBase64(image1), Jpeg),
                      InlineData(CleanBase64(image2), Jpeg)]) == Answer(text)
    requires parse(StripFencesAlt(text)) == Some(verdict)
    ensures Respond(verb, CompareRequest(Some(CompareMode), Some(image1), Some(image2)), backend, parse)
              == Response(200, CorsHeaders, JsonBody(verdict))
  {
  }

  /** Every failure, a failed model call whatever its message or a reply
      that does not parse, gives the same 500: the error's own message is
      never returned. */
  lemma FailuresHidden(verb: string, image1: string, image2: string, backend: Backend, parse: Parser)
    requires verb != "OPTIONS" && image1 != "" && image2 != ""
    ensures var outcome := backend(CompareParts(image1, image2));
            var r := Respond(verb, CompareRequest(Some(CompareMode), Some(image1), Some(image2)), backend, parse);
            (outcome.Failure? || parse(StripFencesAlt(outcome.text)).None?) ==>
              r == Response(500, CorsHeaders, ErrorBody(ProcessingFailure))
  {
  }

  /** Two model failures with different messages give the same response. */
  lemma FailureMessageNeverReturned(verb: string, req: CompareRequest, parse: Parser, message1: string, message2: string)
    ensures Respond(verb, req, _ => Failure(message1), parse) == Respond(verb, req, _ => Failure(message2), parse)
  {
  }
}

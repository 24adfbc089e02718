# Document extraction and face comparison handlers, modelled in Dafny

The repository has two serverless HTTP handlers in front of a multimodal
model. `api/extract.js` takes a document image and a document type, picks
the matching instruction from its `PROMPTS` table (falling back to the RG
one), sends the instruction and the image without its data-URI header to
the model, removes markdown code fences from the reply, parses it as JSON
and returns the object with the original image echoed as a data URI in
`imagem_original`. `bioface/biometria-demo/api/biometria.js` takes two face
images in mode `compare`, sends a fixed forensic instruction with the
document image first and the selfie second, strips fences the same way but
with a different regular expression, and returns the parsed verdict
unchanged. Both set three CORS headers first and answer a preflight with
200 and no body.

The model covers the decision layer around the model call:

- `JsText`: the JavaScript string operations the handlers use
  (`startsWith`, `includes`, `split(",")`, global `replace` of a literal by
  `""`, `trim` with ECMAScript's whitespace set).
- `Http`: JSON values, the response record (status, headers, body), the
  `res` object as a class written step by step, the CORS headers, and the
  backend interface: the parts of a `generateContent` request and its
  outcome (reply text or error message).
- `DataUri`: `CleanBase64` (the comma rule both handlers use) and
  `WrapDataUri` (the `imagem_original` echo).
- `Fences`: the two fence strippers, proved to leave trimmed text without
  "```", to be idempotent, to fix exactly the trimmed fence-free texts, to
  agree on a fenced reply, and to differ on "````json".
- `Extract`: the extraction handler as a pure function `Respond` and as a
  method `Handle` that writes the same answer into the response object in
  the source's order; `RespondAsWritten` is the handler with its stray
  token (see Findings).
- `Biometria`: the comparison handler as a pure function.

The model and the JSON parser are parameters of each handler: `Backend` is
a function from the parts sent to the outcome, `Parser` a function from
text to an optional JSON object. "The model is not consulted" is stated as
"the response is the same for any two backends".

The comparison handler has no method check, so a method other than
OPTIONS is handled like POST and never answered 405. Neither handler
retries a failed parse on the text between the first `{` and the last `}`.
The extraction handler reports specific messages: "Falha ao interpretar
resposta da IA" for a reply that does not parse, and the model error's own
message (or "Falha interna" when it has none) for a failed call.

## Model

| member | source | states |
|---|---|---|
| `JsText.StartsWithIffConcat` | api/extract.js:86 | `startsWith` (`JsText.StartsWith`) holds exactly when the text is the prefix followed by some rest |
| `JsText.OccursIffSomePosition` | api/extract.js:62 | `includes` (`JsText.Occurs`) holds exactly when the pattern sits at some position of the text |
| `JsText.Split` | api/extract.js:62 | `split` with one separator gives at least one piece, exactly one when the separator is absent, and no piece contains it |
| `JsText.JoinSplit` | api/extract.js:62 | joining the pieces of a split with the separator gives back the input |
| `JsText.RemoveAll` | api/extract.js:75 | a global `replace` of a literal by `""` never lengthens the text |
| `JsText.RemoveAllShrinks` | api/extract.js:75 | each occurrence the global `replace` finds is removed whole: a text holding the pattern loses at least its length |
| `JsText.RemoveAllAbsent` | api/extract.js:75 | a global replace of a pattern that does not occur leaves the text unchanged |
| `JsText.Trim` | api/extract.js:75 | `trim` leaves no whitespace at either end and never lengthens the text |
| `JsText.TrimCutsWhitespace` | api/extract.js:75 | what `trim` returns is a contiguous part `s[i..j]` of its input, and everything before `i` and from `j` on is whitespace |
| `JsText.TrimFixedPoints` | api/extract.js:75 | `trim` leaves a text unchanged exactly when neither end is whitespace |
| `JsText.TrimKeepsAbsence` | api/extract.js:75 | what does not occur in a text does not occur in its trimmed form |
| `Http.ResponseWriter.SetHeader` | api/extract.js:49-51 | `setHeader` adds one header and changes nothing else |
| `Http.ResponseWriter.Status` | api/extract.js:52 | `status` sets the code and changes nothing else |
| `Http.ResponseWriter.End` | api/extract.js:52 | `end` finishes the response with no body |
| `Http.ResponseWriter.SendJson` | api/extract.js:54 | `json` finishes the response with the given object as body |
| `DataUri.CleanBase64` | api/extract.js:62 | the cleaned image never contains a comma, and an image without a comma is passed unchanged |
| `DataUri.CleanBase64Segment` | api/extract.js:62 | with a comma, the cleaned image is the text between the first comma and the next comma or the end |
| `DataUri.WrapDataUri` | api/extract.js:86-88 | the echo always starts with "data:"; an input starting with "data:" is kept verbatim, any other is prefixed with "data:image/jpeg;base64," |
| `DataUri.WrapDataUriIdempotent` | api/extract.js:86-88 | wrapping twice is wrapping once |
| `DataUri.EchoCarriesSentPayload` | api/extract.js:86-88 | for a data URI or a comma-free image, cleaning the echo gives the payload that was sent |
| `Fences.StripFences2Pass` | api/extract.js:75 | the two-pass stripper's result never contains "```" and is trimmed |
| `Fences.NoFenceAfterRemoveAll` | api/extract.js:75 | removing every "```" left to right leaves no "```", even where removals join backticks |
| `Fences.StripFences2PassFixedPoints` | api/extract.js:75 | the two-pass stripper leaves a text unchanged exactly when it is trimmed and has no "```" |
| `Fences.StripFences2PassIdempotent` | api/extract.js:75 | stripping twice with two passes is stripping once |
| `Fences.RemoveAlt` | bioface/biometria-demo/api/biometria.js:56 | the one-scan removal of "```json" or "```" never lengthens the text |
| `Fences.RemoveAltShrinks` | bioface/biometria-demo/api/biometria.js:56 | each match the one scan finds is removed whole: a text holding "```" loses at least three characters |
| `Fences.StripFencesAlt` | bioface/biometria-demo/api/biometria.js:56 | the single-regex stripper's result never contains "```" and is trimmed |
| `Fences.NoFenceAfterRemoveAlt` | bioface/biometria-demo/api/biometria.js:56 | removing every "```json" or "```" in one scan leaves no "```" |
| `Fences.StripFencesAltFixedPoints` | bioface/biometria-demo/api/biometria.js:56 | the single-regex stripper leaves a text unchanged exactly when it is trimmed and has no "```" |
| `Fences.StripFencesAltIdempotent` | bioface/biometria-demo/api/biometria.js:56 | stripping twice with the single regex is stripping once |
| `Fences.PlainReplyUnchanged` | api/extract.js:75 | a reply without backticks and without surrounding whitespace passes through both strippers unchanged |
| `Fences.FencedReplyUnwrapped` | api/extract.js:75 | both strippers reduce "```json" + body + "```" to the trimmed body when the body has no backtick |
| `Fences.StrippersDiffer` | bioface/biometria-demo/api/biometria.js:56 | on "````json" the two-pass stripper gives "`" and the single-regex one gives "`json" |
| `Fences.TwoPassOnFourTicks` | api/extract.js:75 | the two-pass stripper turns "````json" into "`" |
| `Fences.TwoPassAfterLoneTick` | api/extract.js:75 | for any backtick-free `u`, the two-pass stripper maps a backtick, "```json" and `u` to the trimmed backtick and `u` |
| `Fences.AltKeepsLoneTick` | bioface/biometria-demo/api/biometria.js:56 | a backtick followed by backtick-free text, trimmed at both ends, passes the single-regex stripper unchanged |
| `Fences.AltOnFourTicks` | bioface/biometria-demo/api/biometria.js:56 | the single-regex stripper turns "````json" into "`json" |
| `Extract.SelectPrompt` | api/extract.js:66 | a key of the table selects its prompt, any other or missing type selects the RG prompt, and the lookup always yields a document prompt |
| `Extract.SelectPromptExact` | api/extract.js:6-45 | the RG prompt is selected exactly when the type is "rg" or not a key; each other prompt exactly by its own key |
| `Extract.Check` | api/extract.js:52-59 | the handler goes on past the checks exactly for a POST whose `imageBase64` is truthy in JavaScript's sense (`Http.Truthy`: present and non-empty), and then with that image |
| `Extract.Extracted` | api/extract.js:62-95 | past the checks the answer carries the CORS headers and is 200 or 500; a 500 carries only `error`; a 200 holds `imagem_original` equal to the wrapped original image |
| `Extract.Respond` | api/extract.js:47-96 | every response has the CORS headers and status 200, 400, 405 or 500; only OPTIONS has no body; failures carry only `error`; a 200 to a POST holds an `imagem_original` starting with "data:" |
| `Extract.RespondAsWritten` | api/extract.js:47-96 | the handler as written also sets the CORS headers on every response |
| `Extract.MethodDispatch` | api/extract.js:49-54 | OPTIONS gives 200 with no body and any method other than POST gives 405 |
| `Extract.MissingImageRejected` | api/extract.js:59 | a missing or empty image gives 400 "Imagem ausente" whatever the model would say |
| `Extract.ParsedReplyReturned` | api/extract.js:62-90 | the model gets the selected prompt then the cleaned JPEG; a parseable reply comes back 200 as the parsed object plus the wrapped original image |
| `Extract.EchoMatchesSentPayload` | api/extract.js:62-88 | on success, cleaning `imagem_original` gives the payload that was sent, for a data URI or comma-free image |
| `Extract.FailuresReported` | api/extract.js:77-95 | an unparseable reply gives 500 "Falha ao interpretar resposta da IA"; a model failure gives 500 with its message, or "Falha interna" |
| `Extract.StrayTokenAlwaysFails` | api/extract.js:67 | as written, every POST with an image ends in 500 "Q is not defined", whatever the model and parser |
| `Extract.StrayTokenOnlyPathDiffers` | api/extract.js:52-67 | the written and corrected handlers agree on every request that does not reach line 67 |
| `Extract.FencedDataUriExample` | api/extract.js:47-96 | a fenced reply for an image given as a data URI (such as "data:image/jpeg;base64,AAAA") gives 200 with the image echoed verbatim once line 67 is gone, and 500 "Q is not defined" as written |
| `Extract.Handle` | api/extract.js:47-96 | writing headers, status and body into the response object step by step leaves exactly the response `Respond` describes |
| `Biometria.Respond` | bioface/biometria-demo/api/biometria.js:5-68 | every response has the CORS headers and status 200, 400 or 500; only OPTIONS has no body; every 500 carries the fixed message |
| `Biometria.Compared` | bioface/biometria-demo/api/biometria.js:45-67 | in compare mode with both images the answer carries the CORS headers and a JSON body, and is 200 or 500 with the fixed message |
| `Biometria.NoMethodCheck` | bioface/biometria-demo/api/biometria.js:12-21 | OPTIONS gives 200 with no body; all other methods are handled alike and none gets 405 |
| `Biometria.InvalidModeRejected` | bioface/biometria-demo/api/biometria.js:21-62 | a mode other than exactly "compare" gives 400 "Modo inválido ou não especificado" without the model |
| `Biometria.MissingImagesRejected` | bioface/biometria-demo/api/biometria.js:22-24 | in compare mode an image that is not truthy in JavaScript's sense (`Http.Truthy`: missing or empty) gives 400 "Faltam imagens para comparar" without the model |
| `Biometria.ImagesCleanedIndependently` | bioface/biometria-demo/api/biometria.js:45-46 | each image's part depends on that image alone, and swapping the images swaps their parts |
| `Biometria.VerdictReturnedUnchanged` | bioface/biometria-demo/api/biometria.js:49-59 | a reply to instruction, document, selfie that parses is returned 200 exactly as parsed |
| `Biometria.FailuresHidden` | bioface/biometria-demo/api/biometria.js:56-67 | a model failure or an unparseable reply gives 500 "Erro interno ao processar biometria" |
| `Biometria.FailureMessageNeverReturned` | bioface/biometria-demo/api/biometria.js:64-67 | two model failures with different messages give the same response |

## Left out

- The Gemini client (`new GoogleGenerativeAI`, `getGenerativeModel`, `generateContent`, `response.text()`) is a network call: it is the `Backend` parameter, whose outcome is the reply text or the thrown error's message.
- `JSON.parse` is the `Parser` parameter, a partial function with no internals; it yields JSON objects only.
- A parsed value that is not an object is not modelled: in the extraction handler assigning `imagem_original` to `null` or a primitive throws a TypeError, and on an array the field is dropped from the output; the comparison handler would return such a value as it is.
- Request fields that are present but not strings, and a request with no body at all (the destructuring throws), are not modelled; fields are optional strings.
- `PROMPTS` lookups of inherited keys such as "constructor" are not modelled; only the four own keys are.
- The prompt texts are opaque: only which prompt is sent is modelled.
- The order of keys in JSON objects is not modelled: objects are maps.
- Strings are sequences of Unicode scalar values rather than JavaScript's UTF-16 code units, so a lone surrogate cannot be represented; no handler behaviour depends on it, since the comma, the backtick and every whitespace character are single code units.
- `console.error` logging, the chaining value returned by `res.status`, and the `config.bodyParser.sizeLimit` setting of 10 MB are not modelled.
- The first-`{`/last-`}` recovery of a failed parse does not exist in either handler and is not modelled.
- The comparison handler is modelled as a pure function only; its `res` writes follow the same pattern the extraction handler's `Handle` models.
- Extract.RespondAsWritten: its own contract states only the CORS headers; what it returns once the checks pass is stated by `Extract.StrayTokenAlwaysFails`.

## Findings

| source | as written | input that shows it | evidently intended | confidence | as-written member | corrected member |
|---|---|---|---|---|---|---|
| api/extract.js:67 | a stray `Q` becomes its own statement and throws a ReferenceError before `generateContent`; the catch block answers 500 "Q is not defined" | POST `{ imageBase64: "data:image/jpeg;base64,AAAA", type: "rg" }` with any model reply | line 67 absent: the model is called, its reply stripped and parsed, and the object returned 200 with `imagem_original` | high, not executed | `Extract.StrayTokenAlwaysFails` | `Extract.ParsedReplyReturned` |

# mmap diagram pipeline — a Dafny model

The mmap application turns a topic into a Mermaid diagram. A user asks for one of four kinds of diagram. The server builds a prompt and sends it to a text-generation model. The returned text is then cleaned, checked and normalised before it reaches the browser. This project models the core of that pipeline and proves what it guarantees:

- `lib/diagram-converter.ts`: the validator (`validateMermaidCode`), the normaliser (`enhanceMermaidCode`) and their composition (`prepareMermaidForRender`). Module `DiagramConverter`.
- `lib/ai-client.ts`: the per-kind instruction table, the prompt template and the clean-up of the model's answer (`generateMermaidDiagram`). The model call is a parameter, `oracle`. Module `AiClient`.
- `app/api/generate-map/route.ts`: the decisions of the `POST` handler, meaning input validation, the 400 and 500 replies and the success reply. Module `GenerateMapRoute`.
- `types/index.ts`: the diagram kinds and the request and response records. Module `Types`.
- Two support modules:
  - `Text` holds the JavaScript string primitives the code relies on: `trim`, the `\s` class, ASCII `toLowerCase` and `startsWith`.
  - `Wrappers` holds `Option` and `Result`.

How the JavaScript behaviour is written down:

- **Global replaces are scans.** A global regular-expression replace becomes a left-to-right scan without overlaps:
  - `StripFence` is the scan that removes every "```mermaid", or every bare "```", each together with at most one newline right after it.
  - `Collapse` is the scan that turns a whitespace run holding three or more newlines into one blank line. Its greedy match ends at the last newline of the run.
  - The lemma `GreedyMatch` ties `Collapse` back to the language of the pattern.
- **Exceptions are values.** A thrown exception becomes an `Err` value. A thrown value in the handler is a `Thrown`.
- **Whitespace is the ECMAScript set.** `IsWs` is the ECMAScript WhiteSpace plus LineTerminator set, which is what both `trim` and `\s` use.
- **Language tags other than mermaid stay.** A block fenced with a tag other than mermaid, e.g. "```graph", keeps the tag as its first line, because only "```mermaid" and "```" are removed (`LanguageTagKept`, `FencedGraphKeepsTag`).

## Model

| member | source | states |
|---|---|---|
| Types.ParseMapType | types/index.ts:1 | Reading a kind token back succeeds exactly on the four tokens, spelled exactly, and gives the kind whose token it is. |
| Types.MapTypeNameRoundTrip | types/index.ts:1 | The four wire tokens are distinct, and each one parses back to its own kind. |
| DiagramConverter.Clean | lib/diagram-converter.ts:7-12 | The cleaned text is trimmed and contains no "```". When the input has no backtick, cleaning is just `trim`. |
| DiagramConverter.CleanIdempotent | lib/diagram-converter.ts:7-12 | Cleaning an already cleaned text changes nothing. |
| DiagramConverter.StripFence | lib/diagram-converter.ts:10-11 | One fence scan never lengthens the text and introduces no character that was not there. |
| DiagramConverter.StripFenceTakesNewline | lib/diagram-converter.ts:10-11 | Text before the first fence is kept, and a fence found by the scan is removed together with the one newline right after it. |
| DiagramConverter.StripAbsent | lib/diagram-converter.ts:10-11 | A fence that does not occur removes nothing. |
| DiagramConverter.StripFenceLeavesNoFence | lib/diagram-converter.ts:11 | After the bare-fence scan no "```" is left, because removal never joins backticks into a new fence. |
| DiagramConverter.MermaidFenceRemoved | lib/diagram-converter.ts:7-12 | A diagram wrapped as "```mermaid", newline, diagram, newline, "```" cleans to exactly the diagram. |
| DiagramConverter.MermaidFenceValidate | lib/diagram-converter.ts:6-31 | Validating a "```mermaid"-fenced diagram gives the same outcome as validating the bare diagram, for every kind. |
| DiagramConverter.LanguageTagKept | lib/diagram-converter.ts:10-12 | In a block fenced as "```tag", where the tag is not "mermaid", only the backticks and the closing fence are removed. The tag stays as the first line. |
| DiagramConverter.FencedGraphKeepsTag | lib/diagram-converter.ts:10-30 | A concept diagram fenced as "```graph" cleans to "graph\ngraph TD\n  A-->B", with the tag still there. It still passes validation for the concept kind. |
| DiagramConverter.SomeStartMatches | lib/diagram-converter.ts:22-24 | The check holds exactly when the lowered text starts with the lowered form of some listed keyword. |
| DiagramConverter.Validate | lib/diagram-converter.ts:6-31 | Validation succeeds exactly when the cleaned text starts, case-insensitively, with an accepted keyword of the kind. On success it returns the cleaned text. On failure it returns the kind's syntax message. |
| DiagramConverter.AcceptsKeyword | lib/diagram-converter.ts:15-24 | A text is accepted for a kind exactly when its lowered form starts with the kind's bare keyword. The entries with a direction ("graph TD", "flowchart LR", ...) accept nothing more. |
| DiagramConverter.JoinedStarts | lib/diagram-converter.ts:27 | The keyword list in each error message, written out, e.g. "graph TD or graph LR or graph". |
| DiagramConverter.SyntaxMessageNamesStarts | lib/diagram-converter.ts:27 | The syntax error names the kind and contains every accepted keyword of the kind. |
| DiagramConverter.GreedyMatch | lib/diagram-converter.ts:38 | At a newline, the blank-line pattern matches exactly when the whitespace run holds at least three newlines. The scan's match is the longest one. |
| DiagramConverter.CollapseHeadRun | lib/diagram-converter.ts:38 | The whitespace run at the head of the replaced text holds the input run's newlines, capped at two. |
| DiagramConverter.CollapseNoBlankRun | lib/diagram-converter.ts:38 | A text with no run of three newlines separated only by whitespace comes out of the blank-line replace unchanged. |
| DiagramConverter.CollapseRunsShort | lib/diagram-converter.ts:38 | After the replace, no whitespace run holds more than two newlines. |
| DiagramConverter.RunStopsAt | lib/diagram-converter.ts:38 | A visible character ends the whitespace run before it: the pattern cannot match across it. |
| DiagramConverter.CollapseSplit | lib/diagram-converter.ts:38 | The replace works run by run. A visible character is kept, and the text on each side of it is replaced independently. |
| DiagramConverter.CollapseBetween | lib/diagram-converter.ts:38 | A whitespace run between two visible characters is replaced on its own, and everything before and after it independently. |
| DiagramConverter.CollapseShortRun | lib/diagram-converter.ts:38 | A whitespace run holding at most two newlines is kept exactly. |
| DiagramConverter.CollapseLongRun | lib/diagram-converter.ts:38 | A whitespace run holding three or more newlines becomes the whitespace before its first newline, one blank line ("\n\n"), and the whitespace after its last newline, so the indentation of the next line survives. |
| DiagramConverter.CollapseKeepsNoFence | lib/diagram-converter.ts:38 | The blank-line replace introduces no "```". |
| DiagramConverter.Enhance | lib/diagram-converter.ts:36-44 | The normalised text is trimmed and has no blank-line run left. A text without such runs is only trimmed. |
| DiagramConverter.EnhanceKeepsAcceptance | lib/diagram-converter.ts:49-52 | Normalising a validated text cannot disturb its accepted leading keyword. |
| DiagramConverter.Prepare | lib/diagram-converter.ts:49-53 | Preparation fails exactly when validation fails, with the kind's syntax message. On success the text is accepted for the kind, trimmed, free of blank-line runs and free of fences. |
| DiagramConverter.PrepareIdempotent | lib/diagram-converter.ts:49-53 | Preparing a prepared text again for the same kind returns it unchanged. |
| AiClient.SampleValidates | lib/ai-client.ts:17-41 | The sample diagram in each kind's instruction passes the validator for its own kind, unchanged. |
| AiClient.Decimal | lib/ai-client.ts:49 | A count is written as a non-empty string of decimal digits with no leading zero. |
| AiClient.DecimalRoundTrip | lib/ai-client.ts:49 | The digits written for a count read back as that count. |
| AiClient.DescriptionLineShows | lib/ai-client.ts:46 | The description line is empty exactly when no non-empty description was given. Otherwise it is "Description: " followed by the description. |
| AiClient.ImageNoteShows | lib/ai-client.ts:47-51 | The image note is empty exactly when there are no images. Otherwise it carries digits that read back as the number of images. |
| AiClient.PromptFrame | lib/ai-client.ts:43-65 | The prompt opens with the preamble line and ends with the closing request to generate the diagram. |
| AiClient.PromptHeader | lib/ai-client.ts:43-51 | The prompt contains, as consecutive whole lines, the topic line, the description line and the image note. |
| AiClient.PromptNamesKind | lib/ai-client.ts:53-60 | The prompt names the kind on a line of its own. It carries the kind's instruction verbatim on whole lines, and its third rule names the kind again. |
| AiClient.PromptSeesOnlyImageCount | lib/ai-client.ts:47-51 | Two image lists of the same length give the same prompt: image content and image topics never reach the model. |
| AiClient.Generate | lib/ai-client.ts:67-85 | The client fails exactly when the service fails, always with the same fixed message. Otherwise it returns the service's text cleaned exactly as the validator cleans: trimmed, free of fences, and a fixed point of the cleaning. |
| GenerateMapRoute.Admit | app/api/generate-map/route.ts:11-34 | A request is admitted exactly when a non-blank topic and one of the four kind tokens are present. The topic is checked first. An admitted request passes on the trimmed topic, the trimmed description and the images unchanged. |
| GenerateMapRoute.Post | app/api/generate-map/route.ts:8-61 | The handler replies 200, 400 or 500. Its success flag, error field and status agree. Only input-validation failures are 400s, and only they omit the diagram field. A 400 is exactly the rejection input validation produced ('Topic is required' or 'Invalid map type'). Every 500 carries an empty diagram. A success carries a text that is accepted for the requested kind, trimmed, free of blank-line runs and free of fences. |
| GenerateMapRoute.RejectedBeforeGenerating | app/api/generate-map/route.ts:10-26 | A request that fails to parse or fails input validation is answered without consulting the generator. |
| GenerateMapRoute.PostOutcome | app/api/generate-map/route.ts:29-59 | An admitted request succeeds exactly when the generator's text, once cleaned, passes validation, and the reply then carries the normalised text. A thrown generator error or a validation error becomes a 500 with its message. |
| GenerateMapRoute.Serve | app/api/generate-map/route.ts:29-59 | With the model client wired in, a success implies the service answered. An admitted request whose service call fails gets a 500 with the client's fixed message. |
| GenerateMapRoute.ServeOutcome | app/api/generate-map/route.ts:29-44 | With the model client wired in, an admitted request succeeds exactly when the service answers with a text whose cleaned form passes validation. The reply then carries that text prepared for rendering. A failed service call gives a 500 with the client's fixed message. |
| GenerateMapRoute.AdmittedPrompt | app/api/generate-map/route.ts:29-34 | For an admitted request the service is asked with the fixed model name and temperature. The prompt carries the trimmed topic, and its description line is empty exactly when the description is absent or blank. |

## Left out

- The call to the text-generation service (`generateText` with the Gemini model) is a parameter `oracle`. It maps the request to a text or to failure. What the model answers is not modelled.
- `console.error` logging in the client and in the handler has no effect on results and is left out.
- JSON parsing of the request and `NextResponse` serialisation are left out. A body that fails to parse is the `Err` case of `Post`'s input. Fields are modelled as optional strings, and JSON values of other types are left out. In the handler such values take different paths. A falsy `topic` such as 0 gets the 400 'Topic is required'. A non-string `mapType` gets the 400 'Invalid map type'. A truthy non-string `topic`, or a non-string `description` other than null, throws when trimmed and ends in the catch-all 500. A null `description` is treated as absent. A non-array `images` value that has a `length`, such as a string, reaches the prompt as that count.
- `toLowerCase` is modelled for ASCII letters only. Every keyword compared is ASCII, but a non-ASCII character that lowercases to an ASCII letter (such as the Kelvin sign) is not modelled.
- The edge runtime declaration, the React components and `lib/image-utils.ts` are outside the core.
- The client declares `images` as a list of strings, while the handler passes the uploaded `ImageWithTopic` records. Only the number of images is used, so the model types them as the records the handler passes.
- The temperature 0.7 is kept as a `real` and only passed along; no floating-point behaviour is modelled.
- The response record declares `mermaidCode` as always present, but the 400 replies omit it. The model makes it optional and follows the handler.
- DiagramConverter.StripFence: its own contract states only that the scan never lengthens the text and adds no characters. What it removes is stated by StripFenceTakesNewline, StripAbsent and StripFenceLeavesNoFence, because a relation between different inputs is a lemma, not a result property.
- DiagramConverter.Clean: its own contract does not say which fences go. MermaidFenceRemoved, LanguageTagKept and StripFenceTakesNewline state that.

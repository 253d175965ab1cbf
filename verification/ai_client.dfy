/** The pure parts of the model client (lib/ai-client.ts): the per-kind
    instruction table, the assembly of the prompt, and the clean-up of the
    text the model returns. The text-generation service itself is a
    parameter, `oracle`. */
module AiClient {
  import opened Wrappers
  import opened Text
  import opened Types
  import opened DiagramConverter

  /** The options of `generateMermaidDiagram`. The endpoint passes the
      uploaded images through unchanged; only their number reaches the prompt. */
  datatype GenerateOptions = GenerateOptions(
    topic: string,
    description: Option<string>,
    mapType: MapType,
    images: Option<seq<ImageWithTopic>>)

  /** One call of the text-generation service. */
  datatype TextRequest = TextRequest(model: string, prompt: string, temperature: real)

  const ModelName: string := "gemini-flash-lite-latest"
  const Temperature: real := 0.7
  const GenerationFailed: string := "Failed to generate diagram. Please try again."

  // ---------------------------------------------------------------------
  // Instruction table
  // ---------------------------------------------------------------------

  /** The first line of each kind's instruction. */
  function InstructionLead(mt: MapType): string {
    match mt
    case Mindmap => "Use Mermaid mindmap syntax. Start with \"mindmap\" and use proper indentation:"
    case Concept => "Use Mermaid graph TD syntax for concept maps with labeled relationships:"
    case Flowchart => "Use Mermaid flowchart syntax:"
    case Sequence => "Use Mermaid sequence diagram syntax:"
  }

  /** The sample diagrams of the instruction table, line by line. */
  const MindmapSample: seq<string> :=
    [ "mindmap",
      "  root((Central Topic))",
      "    Branch 1",
      "      Sub-topic 1.1",
      "      Sub-topic 1.2",
      "    Branch 2" ]
  const ConceptSample: seq<string> :=
    [ "graph TD",
      "    A[Concept 1] -->|relationship|" + " B[Concept 2]",
      "    B -->|another relationship|" + " C[Concept 3]" ]
  const FlowchartSample: seq<string> :=
    [ "flowchart TD",
      "    Start([Start]) -->" + " Process[Process Step]",
      "    Process --> Decision{Decision?}",
      "    Decision -->|Yes| End([End])",
      "    Decision -->|No| Process" ]
  const SequenceSample: seq<string> :=
    [ "sequenceDiagram",
      "    participant A",
      "    participant B",
      "    A->>B: Message",
      "    B-->>A: Response" ]

  /** The lines of the sample diagram that follows the first line of each kind's instruction. */
  function SampleLines(mt: MapType): seq<string> {
    match mt
    case Mindmap => MindmapSample
    case Concept => ConceptSample
    case Flowchart => FlowchartSample
    case Sequence => SequenceSample
  }

  function Sample(mt: MapType): string {
    Join(SampleLines(mt), "\n")
  }

  /** The instruction of the table for kind `mt`: its first line, then the sample diagram. */
  function Instructions(mt: MapType): string {
    InstructionLead(mt) + "\n" + Sample(mt)
  }

  lemma {:induction false} JoinHead(parts: seq<string>, sep: string)
    requires |parts| > 0
    ensures StartsWith(Join(parts, sep), parts[0])
  {
    if |parts| > 1 {
      assert Join(parts, sep) == parts[0] + (sep + Join(parts[1..], sep));
    }
  }

  lemma {:induction false} JoinLast(parts: seq<string>, sep: string)
    requires |parts| > 0
    ensures |parts[|parts| - 1]| <= |Join(parts, sep)|
    ensures Join(parts, sep)[|Join(parts, sep)| - |parts[|parts| - 1]|..] == parts[|parts| - 1]
    decreases |parts|
  {
    if |parts| > 1 {
      var rest := Join(parts[1..], sep);
      JoinLast(parts[1..], sep);
      assert parts[1..][|parts[1..]| - 1] == parts[|parts| - 1];
      var j := Join(parts, sep);
      assert j == (parts[0] + sep) + rest;
      assert j[|j| - |rest|..] == rest;
    }
  }

  lemma {:induction false} JoinAvoids(parts: seq<string>, sep: string, c: char)
    requires c !in sep
    requires forall i :: 0 <= i < |parts| ==> c !in parts[i]
    ensures c !in Join(parts, sep)
    decreases |parts|
  {
    if |parts| > 1 {
      JoinAvoids(parts[1..], sep, c);
      assert parts[1..][0] == parts[1];
      assert c !in parts[0];
    } else if |parts| == 1 {
      assert c !in parts[0];
    }
  }

  /** A text that starts with `head` starts, once lowered, with the lowered head. */
  lemma LowerHead(s: string, head: string)
    requires StartsWith(s, head)
    ensures StartsWith(Lower(s), Lower(head))
  {
    assert forall i :: 0 <= i < |head| ==> Lower(s)[i] == LowerChar(head[i]);
  }

  /** Newline-joined lines, none holding a backtick, neither end whitespace,
      are left as they are by the validator's clean-up. */
  lemma JoinedLinesClean(lines: seq<string>)
    requires |lines| > 0 && |lines[0]| > 0 && |lines[|lines| - 1]| > 0
    requires forall i :: 0 <= i < |lines| ==> '`' !in lines[i]
    requires !IsWs(lines[0][0]) && !IsWs(lines[|lines| - 1][|lines[|lines| - 1]| - 1])
    ensures Clean(Join(lines, "\n")) == Join(lines, "\n")
  {
    var s := Join(lines, "\n");
    var first := lines[0];
    var last := lines[|lines| - 1];
    JoinAvoids(lines, "\n", '`');
    JoinHead(lines, "\n");
    JoinLast(lines, "\n");
    assert s[0] == first[0];
    assert s[|s| - 1] == last[|last| - 1];
    TrimTrimmed(s);
  }

  /** ... and, when the first line starts with the kind's keyword in any
      case, the validator accepts them unchanged. */
  lemma JoinedLinesValidate(lines: seq<string>, mt: MapType)
    requires |lines| > 0 && |lines[0]| > 0 && |lines[|lines| - 1]| > 0
    requires forall i :: 0 <= i < |lines| ==> '`' !in lines[i]
    requires !IsWs(lines[0][0]) && !IsWs(lines[|lines| - 1][|lines[|lines| - 1]| - 1])
    requires StartsWith(Lower(lines[0]), Keyword(mt))
    ensures Validate(Join(lines, "\n"), mt) == Ok(Join(lines, "\n"))
  {
    var s := Join(lines, "\n");
    JoinedLinesClean(lines);
    JoinHead(lines, "\n");
    LowerHead(s, lines[0]);
    AcceptsKeyword(s, mt);
    assert Lower(s)[..|Keyword(mt)|] == Lower(lines[0])[..|Keyword(mt)|];
  }

  /** No line of the given sample holds a backtick. */
  predicate Plain(lines: seq<string>) {
    forall i :: 0 <= i < |lines| ==> '`' !in lines[i]
  }

  lemma MindmapPlain()
    ensures Plain(MindmapSample)
  {
    var l := MindmapSample;
    assert '`' !in l[0] && '`' !in l[1] && '`' !in l[2];
    assert '`' !in l[3] && '`' !in l[4] && '`' !in l[5];
  }

  lemma ConceptPlain()
    ensures Plain(ConceptSample)
  {
    var l := ConceptSample;
    assert '`' !in l[0];
    assert '`' !in l[1];
    assert '`' !in l[2];
  }

  lemma FlowchartPlain()
    ensures Plain(FlowchartSample)
  {
    var l := FlowchartSample;
    assert '`' !in l[0];
    assert '`' !in l[1];
    assert '`' !in l[2];
    assert '`' !in l[3];
    assert '`' !in l[4];
  }

  lemma SequencePlain()
    ensures Plain(SequenceSample)
  {
    var l := SequenceSample;
    assert '`' !in l[0] && '`' !in l[1] && '`' !in l[2];
    assert '`' !in l[3] && '`' !in l[4];
  }

  /** No line of any sample diagram holds a backtick. */
  lemma SampleLinesPlain(mt: MapType)
    ensures Plain(SampleLines(mt))
  {
    match mt
    case Mindmap => MindmapPlain();
    case Concept => ConceptPlain();
    case Flowchart => FlowchartPlain();
    case Sequence => SequencePlain();
  }

  /** The first line of each sample diagram starts with the kind's keyword,
      in any case, and its last line ends in a character that is not whitespace. */
  lemma SampleLinesEnds(mt: MapType)
    ensures var l := SampleLines(mt);
      && |l| > 0 && |l[0]| > 0 && |l[|l| - 1]| > 0
      && StartsWith(Lower(l[0]), Keyword(mt))
      && !IsWs(l[0][0]) && !IsWs(l[|l| - 1][|l[|l| - 1]| - 1])
  {
    match mt
    case Mindmap =>
      assert Lower(MindmapSample[0])[..7] == "mindmap";
      assert MindmapSample[5][|MindmapSample[5]| - 1] == '2';
    case Concept =>
      assert Lower(ConceptSample[0])[..5] == "graph";
      assert ConceptSample[2][|ConceptSample[2]| - 1] == ']';
    case Flowchart =>
      assert Lower(FlowchartSample[0])[..9] == "flowchart";
      assert FlowchartSample[4][|FlowchartSample[4]| - 1] == 's';
    case Sequence =>
      assert Lower(SequenceSample[0])[..15] == "sequencediagram";
      assert SequenceSample[4][|SequenceSample[4]| - 1] == 'e';
  }

  /** Each sample diagram of the instruction table passes the validator for
      its own kind, unchanged. */
  lemma SampleValidates(mt: MapType)
    ensures Validate(Sample(mt), mt) == Ok(Sample(mt))
  {
    SampleLinesPlain(mt);
    SampleLinesEnds(mt);
    JoinedLinesValidate(SampleLines(mt), mt);
  }

  // ---------------------------------------------------------------------
  // Prompt
  // ---------------------------------------------------------------------

  function Digit(d: nat): char
    requires d < 10
  {
    "0123456789"[d]
  }

  /** `${n}` for a natural number: its decimal digits, no leading zero. */
  function Decimal(n: nat): (r: string)
    ensures |r| > 0
    ensures forall i :: 0 <= i < |r| ==> '0' <= r[i] <= '9'
    ensures |r| > 1 ==> r[0] != '0'
    decreases n
  {
    if n < 10 then [Digit(n)] else Decimal(n / 10) + [Digit(n % 10)]
  }

  /** The value of a string of decimal digits. */
  function DecimalValue(s: string): nat
    requires forall i :: 0 <= i < |s| ==> '0' <= s[i] <= '9'
    decreases |s|
  {
    if |s| == 0 then 0
    else 10 * DecimalValue(s[..|s| - 1]) + (s[|s| - 1] as int - '0' as int)
  }

  /** The count written into the prompt reads back as the count. */
  lemma {:induction false} DecimalRoundTrip(n: nat)
    ensures DecimalValue(Decimal(n)) == n
    decreases n
  {
    var r := Decimal(n);
    if n >= 10 {
      DecimalRoundTrip(n / 10);
      assert r[..|r| - 1] == Decimal(n / 10);
    }
  }

  /** The description line: empty unless the description is a non-empty string. */
  function DescriptionLine(description: Option<string>): string {
    if description.Some? && description.value != "" then "Description: " + description.value else ""
  }

  /** The number of images: an absent list counts as none. */
  function ImageCount(images: Option<seq<ImageWithTopic>>): nat {
    if images.Some? then |images.value| else 0
  }

  /** The image note line: empty unless images were supplied. */
  function ImageNote(images: Option<seq<ImageWithTopic>>): string {
    if ImageCount(images) > 0 then
      "Note: User has provided " + Decimal(ImageCount(images)) + " image(s). Consider any visual information if relevant."
    else ""
  }

  const Preamble: string := "You are a diagram expert. Create a Mermaid diagram based on the following information:"
  const RulesHeading: string := "IMPORTANT RULES:"
  const Rule1: string := "1. Return ONLY the Mermaid code, no explanations or markdown code blocks"
  const Rule2: string := "2. Do not wrap the code in ```mermaid or any other formatting"
  const Rule4: string := "4. Keep it clear, well-structured, and easy to understand"
  const Rule5: string := "5. For mind maps, use proper indentation (2 spaces per level)"
  const Rule6: string := "6. Make sure all connections and relationships make logical sense"
  const Closing: string := "Generate the Mermaid diagram now:"

  function TopicLine(topic: string): string {
    "Topic: " + topic
  }

  function DiagramTypeLine(name: string): string {
    "Diagram Type: " + name
  }

  function Rule3(name: string): string {
    "3. Ensure the syntax is valid Mermaid " + name + " syntax"
  }

  /** The lines of the prompt template, given its variable lines. */
  function TemplateLines(topicLine: string, descriptionLine: string, imageNote: string, name: string, instructions: string): seq<string> {
    [ Preamble, "", topicLine, descriptionLine, imageNote, "",
      DiagramTypeLine(name), "", instructions, "",
      RulesHeading, Rule1, Rule2, Rule3(name), Rule4, Rule5, Rule6, "", Closing ]
  }

  /** The lines of the prompt, in order. */
  function PromptLines(o: GenerateOptions): seq<string> {
    TemplateLines(TopicLine(o.topic), DescriptionLine(o.description), ImageNote(o.images),
      MapTypeName(o.mapType), Instructions(o.mapType))
  }

  /** The prompt sent to the text-generation service: the template's lines joined by newlines. */
  function Prompt(o: GenerateOptions): string {
    Join(PromptLines(o), "\n")
  }

  /** `line` is a whole line of `text`, starting at position `k`. */
  predicate LineAt(text: string, k: int, line: string) {
    && 0 < k && k + |line| < |text|
    && text[k - 1] == '\n' && text[k..k + |line|] == line && text[k + |line|] == '\n'
  }

  /** Where element `i` starts in the newline-joined `parts`. */
  function LineStart(parts: seq<string>, i: nat): nat
    requires i <= |parts|
  {
    |Join(parts[..i], "\n")| + 1
  }

  lemma {:induction false} JoinSplit(parts: seq<string>, sep: string, i: nat)
    requires 0 < i < |parts|
    ensures Join(parts, sep) == Join(parts[..i], sep) + sep + Join(parts[i..], sep)
    decreases i
  {
    if i > 1 {
      JoinSplit(parts[1..], sep, i - 1);
      assert parts[1..][..i - 1] == parts[..i][1..];
      assert parts[1..][i - 1..] == parts[i..];
      assert parts[..i][0] == parts[0];
    } else {
      assert parts[..1] == [parts[0]];
      assert parts[1..] == parts[i..];
    }
  }

  /** A block framed by newlines is a whole line of the text around it. */
  lemma LineInside(text: string, before: string, rest: string, block: string, after: string)
    requires text == before + "\n" + rest && rest == block + "\n" + after
    ensures LineAt(text, |before| + 1, block)
  {
    var k := |before| + 1;
    assert text[k - 1] == '\n';
    assert text[k..] == rest;
    assert text[k..k + |block|] == rest[..|block|];
    assert rest[..|block|] == block;
  }

  /** The newline-joined tail from element `i` splits again before element `j`. */
  lemma JoinTailSplit(parts: seq<string>, i: nat, j: nat)
    requires 0 < i < j < |parts|
    ensures Join(parts[i..], "\n") == Join(parts[i..j], "\n") + "\n" + Join(parts[j..], "\n")
  {
    var rest := parts[i..];
    assert rest[..j - i] == parts[i..j];
    assert rest[j - i..] == parts[j..];
    JoinSplit(rest, "\n", j - i);
  }

  /** Inner elements `i` to `j - 1` of newline-joined parts form whole lines of the joined text. */
  lemma JoinBlock(parts: seq<string>, i: nat, j: nat)
    requires 0 < i < j < |parts|
    ensures LineAt(Join(parts, "\n"), LineStart(parts, i), Join(parts[i..j], "\n"))
  {
    JoinSplit(parts, "\n", i);
    JoinTailSplit(parts, i, j);
    LineInside(Join(parts, "\n"), Join(parts[..i], "\n"), Join(parts[i..], "\n"),
      Join(parts[i..j], "\n"), Join(parts[j..], "\n"));
  }

  /** Every inner element of newline-joined parts is a whole line of the joined text. */
  lemma JoinLine(parts: seq<string>, i: nat)
    requires 0 < i < |parts| - 1
    ensures LineAt(Join(parts, "\n"), LineStart(parts, i), parts[i])
  {
    JoinBlock(parts, i, i + 1);
    assert parts[i..i + 1] == [parts[i]];
  }

  /** Where the variable lines sit among the template's lines. */
  lemma TemplateLinesAt(topicLine: string, descriptionLine: string, imageNote: string, name: string, instructions: string)
    ensures var lines := TemplateLines(topicLine, descriptionLine, imageNote, name, instructions);
      && |lines| == 19
      && lines[2] == topicLine && lines[3] == descriptionLine && lines[4] == imageNote
      && lines[6] == DiagramTypeLine(name) && lines[8] == instructions && lines[13] == Rule3(name)
  {
  }

  lemma TemplateHeader(topicLine: string, descriptionLine: string, imageNote: string, name: string, instructions: string)
    ensures var lines := TemplateLines(topicLine, descriptionLine, imageNote, name, instructions);
      LineAt(Join(lines, "\n"), LineStart(lines, 2), topicLine + "\n" + descriptionLine + "\n" + imageNote)
  {
    var lines := TemplateLines(topicLine, descriptionLine, imageNote, name, instructions);
    TemplateLinesAt(topicLine, descriptionLine, imageNote, name, instructions);
    JoinBlock(lines, 2, 5);
    assert lines[2..5] == [topicLine, descriptionLine, imageNote];
    JoinThree(topicLine, descriptionLine, imageNote, "\n");
  }

  /** The description line is empty exactly when no non-empty description
      was given; otherwise it is "Description: " followed by the description. */
  lemma DescriptionLineShows(description: Option<string>)
    ensures DescriptionLine(description) == "" <==> description.None? || description.value == ""
    ensures DescriptionLine(description) != "" ==>
      StartsWith(DescriptionLine(description), "Description: ")
      && DescriptionLine(description)[|"Description: "|..] == description.value
  {
  }

  /** The image note is empty exactly when there are no images; otherwise it
      writes a number in decimal that reads back as the number of images. */
  lemma ImageNoteShows(images: Option<seq<ImageWithTopic>>)
    ensures ImageNote(images) == "" <==> ImageCount(images) == 0
    ensures ImageCount(images) > 0 ==> exists digits ::
      && (forall i :: 0 <= i < |digits| ==> '0' <= digits[i] <= '9')
      && ImageNote(images) == "Note: User has provided " + digits + " image(s). Consider any visual information if relevant."
      && DecimalValue(digits) == ImageCount(images)
  {
    if ImageCount(images) > 0 {
      DecimalRoundTrip(ImageCount(images));
    }
  }

  /** The information lines of the prompt are whole consecutive lines:
      "Topic: <topic>", then the description line (empty unless a non-empty
      description was given), then the image note (empty unless there are images). */
  lemma PromptHeader(o: GenerateOptions)
    ensures exists k :: LineAt(Prompt(o), k, TopicLine(o.topic) + "\n" + DescriptionLine(o.description) + "\n" + ImageNote(o.images))
  {
    var a, b, c := TopicLine(o.topic), DescriptionLine(o.description), ImageNote(o.images);
    var name, instructions := MapTypeName(o.mapType), Instructions(o.mapType);
    PromptHeaderAt(o, a, b, c, name, instructions);
  }

  lemma PromptHeaderAt(o: GenerateOptions, a: string, b: string, c: string, name: string, instructions: string)
    requires a == TopicLine(o.topic) && b == DescriptionLine(o.description) && c == ImageNote(o.images)
    requires name == MapTypeName(o.mapType) && instructions == Instructions(o.mapType)
    ensures LineAt(Prompt(o), LineStart(TemplateLines(a, b, c, name, instructions), 2), a + "\n" + b + "\n" + c)
  {
    TemplateHeader(a, b, c, name, instructions);
  }

  /** The prompt names the diagram kind on a line of its own, carries the
      kind's instruction verbatim on lines of their own, and its third rule
      names the kind again. */
  lemma PromptNamesKind(o: GenerateOptions)
    ensures exists k :: LineAt(Prompt(o), k, DiagramTypeLine(MapTypeName(o.mapType)))
    ensures exists k :: LineAt(Prompt(o), k, Instructions(o.mapType))
    ensures exists k :: LineAt(Prompt(o), k, Rule3(MapTypeName(o.mapType)))
  {
    var a, b, c := TopicLine(o.topic), DescriptionLine(o.description), ImageNote(o.images);
    var name, instructions := MapTypeName(o.mapType), Instructions(o.mapType);
    PromptKindAt(o, a, b, c, name, instructions);
  }

  lemma PromptKindAt(o: GenerateOptions, a: string, b: string, c: string, name: string, instructions: string)
    requires a == TopicLine(o.topic) && b == DescriptionLine(o.description) && c == ImageNote(o.images)
    requires name == MapTypeName(o.mapType) && instructions == Instructions(o.mapType)
    ensures var lines := TemplateLines(a, b, c, name, instructions);
      && LineAt(Prompt(o), LineStart(lines, 6), DiagramTypeLine(name))
      && LineAt(Prompt(o), LineStart(lines, 8), instructions)
      && LineAt(Prompt(o), LineStart(lines, 13), Rule3(name))
  {
    var lines := TemplateLines(a, b, c, name, instructions);
    TemplateLinesAt(a, b, c, name, instructions);
    JoinLine(lines, 6);
    JoinLine(lines, 8);
    JoinLine(lines, 13);
  }

  /** The prompt opens with the preamble line and closes with the request
      to generate the diagram. */
  lemma PromptFrame(o: GenerateOptions)
    ensures StartsWith(Prompt(o), Preamble + "\n")
    ensures |Closing| <= |Prompt(o)| && Prompt(o)[|Prompt(o)| - |Closing|..] == Closing
  {
    var a, b, c := TopicLine(o.topic), DescriptionLine(o.description), ImageNote(o.images);
    var name, instructions := MapTypeName(o.mapType), Instructions(o.mapType);
    TemplateFrame(a, b, c, name, instructions);
  }

  lemma TemplateFrame(a: string, b: string, c: string, name: string, instructions: string)
    ensures var text := Join(TemplateLines(a, b, c, name, instructions), "\n");
      && StartsWith(text, Preamble + "\n")
      && |Closing| <= |text| && text[|text| - |Closing|..] == Closing
  {
    var lines := TemplateLines(a, b, c, name, instructions);
    TemplateLinesAt(a, b, c, name, instructions);
    assert lines[0] == Preamble && lines[18] == Closing;
    JoinSplit(lines, "\n", 1);
    assert lines[..1] == [Preamble];
    JoinLast(lines, "\n");
  }

  /** No image content and no image topic reaches the prompt: only the number of images does. */
  lemma PromptSeesOnlyImageCount(o: GenerateOptions, images: Option<seq<ImageWithTopic>>)
    requires ImageCount(images) == ImageCount(o.images)
    ensures Prompt(o.(images := images)) == Prompt(o)
  {
  }

  // ---------------------------------------------------------------------
  // Generation
  // ---------------------------------------------------------------------

  /** The request handed to the text-generation service. */
  function TextRequestFor(o: GenerateOptions): TextRequest {
    TextRequest(ModelName, Prompt(o), Temperature)
  }

  /** `generateMermaidDiagram`: the service's text, cleaned exactly as the
      validator cleans; any failure of the service becomes one fixed error. */
  function Generate(o: GenerateOptions, oracle: TextRequest -> Option<string>): (r: Result<string, string>)
    ensures r.Err? <==> oracle(TextRequestFor(o)).None?
    ensures r.Err? ==> r.error == GenerationFailed
    ensures r.Ok? ==> IsTrimmed(r.value) && !Occurs(Fence, r.value)
    ensures r.Ok? ==> Clean(r.value) == r.value
    ensures r.Ok? ==> r.value == Clean(oracle(TextRequestFor(o)).value)
  {
    match oracle(TextRequestFor(o))
    case None => Err(GenerationFailed)
    case Some(text) =>
      CleanIdempotent(text);
      Ok(Clean(text))
  }
}

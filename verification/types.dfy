/** The shared records of the application: the four diagram kinds, an image
    labelled with a topic, the request body and the response body of the
    diagram-generation endpoint. */
module Types {
  import opened Wrappers

  /** The four diagram kinds a user may ask for. */
  datatype MapType = Mindmap | Concept | Flowchart | Sequence

  /** The wire token of each diagram kind. */
  function MapTypeName(mt: MapType): string {
    match mt
    case Mindmap => "mindmap"
    case Concept => "concept"
    case Flowchart => "flowchart"
    case Sequence => "sequence"
  }

  /** Reads a wire token back; anything but the four tokens (exact case) is unknown. */
  function ParseMapType(s: string): (r: Option<MapType>)
    ensures r.Some? ==> MapTypeName(r.value) == s
    ensures forall mt :: MapTypeName(mt) == s ==> r == Some(mt)
  {
    if s == "mindmap" then Some(Mindmap)
    else if s == "concept" then Some(Concept)
    else if s == "flowchart" then Some(Flowchart)
    else if s == "sequence" then Some(Sequence)
    else None
  }

  /** The wire tokens are distinct, and each parses back to its kind. */
  lemma MapTypeNameRoundTrip(mt: MapType)
    ensures ParseMapType(MapTypeName(mt)) == Some(mt)
    ensures forall other :: MapTypeName(other) == MapTypeName(mt) ==> other == mt
  {
  }

  /** An uploaded image (base64 text) together with the topic it illustrates. */
  datatype ImageWithTopic = ImageWithTopic(base64: string, topic: string)

  /** The JSON body of a generation request. Every field may be absent from
      the JSON, so each is optional; the endpoint checks them itself. */
  datatype MapGenerationRequest = MapGenerationRequest(
    topic: Option<string>,
    description: Option<string>,
    mapType: Option<string>,
    images: Option<seq<ImageWithTopic>>)

  /** The JSON body of a response. `mermaidCode` is absent on the
      input-validation replies, so it is optional here. */
  datatype MapGenerationResponse = MapGenerationResponse(
    mermaidCode: Option<string>,
    success: bool,
    error: Option<string>)
}

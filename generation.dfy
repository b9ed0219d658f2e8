/**
 * One generation request: the outbound parts (references, sketch, text) and
 * the scan of the reply for the image it carries.
 */
module Generation {
  import opened Wrappers
  import opened JsText

  const PngMime := "image/png"
  const UserRole := "USER"
  const AspectRatio := "16:9"
  const DataUrlPrefix := "data:image/png;base64,"

  /** `{ data, mimeType }`; `data` is `None` when it is `undefined`. */
  datatype Blob = Blob(data: Option<string>, mimeType: string)

  /** A content part: `{ inlineData }`, `{ text }`, or whatever mix a reply holds. */
  datatype Part = Part(inlineData: Option<Blob>, text: Option<string>)

  /** The request handed to `generateContent`: one user turn and the image configuration. */
  datatype Request = Request(model: string, role: string, parts: seq<Part>, aspectRatio: string)

  /** The reply, with every level that optional chaining may find missing. */
  datatype Content = Content(parts: Option<seq<Part>>)
  datatype Candidate = Candidate(content: Option<Content>)
  datatype Response = Response(candidates: Option<seq<Candidate>>)

  function ImagePart(data: Option<string>): Part {
    Part(Some(Blob(data, PngMime)), None)
  }

  function TextPart(text: string): Part {
    Part(None, Some(text))
  }

  /** `dataUrl.split(',')[1]`: the base64 payload after the data-URL header. */
  function Payload(dataUrl: string): (r: Option<string>)
    ensures r.None? <==> ',' !in dataUrl
  {
    SecondField(dataUrl, ',')
  }

  /** The outbound order: reference payloads in gallery order, then the sketch,
      then the single text part, last. */
  predicate OrderedParts(parts: seq<Part>, images: seq<string>, sketch: Option<string>, text: string) {
    && |parts| == |images| + 2
    && (forall i :: 0 <= i < |images| ==> parts[i] == ImagePart(Payload(images[i])))
    && parts[|images|] == ImagePart(sketch)
    && parts[|images| + 1] == TextPart(text)
  }

  /** Only the last part of an ordered request carries text, and every other
      part is a PNG image. */
  lemma OrderedPartsOneTextLast(parts: seq<Part>, images: seq<string>, sketch: Option<string>, text: string)
    requires OrderedParts(parts, images, sketch, text)
    ensures parts[|parts| - 1].text == Some(text)
    ensures forall i :: 0 <= i < |parts| - 1 ==>
      parts[i].text.None? && parts[i].inlineData.Some? && parts[i].inlineData.value.mimeType == PngMime
  {
  }

  /** Builds the parts the way the page pushes them: one image part per reference,
      the sketch, then the prompt. */
  method BuildParts(referenceImages: seq<string>, drawingData: Option<string>, finalPrompt: string)
    returns (parts: seq<Part>)
    ensures OrderedParts(parts, referenceImages, drawingData, finalPrompt)
  {
    parts := [];
    for i := 0 to |referenceImages|
      invariant |parts| == i
      invariant forall j :: 0 <= j < i ==> parts[j] == ImagePart(Payload(referenceImages[j]))
    {
      var data := Payload(referenceImages[i]);
      parts := parts + [ImagePart(data)];
    }
    parts := parts + [ImagePart(drawingData)];
    parts := parts + [TextPart(finalPrompt)];
  }

  /** `response.candidates?.[0]?.content?.parts`, with a missing level read as no parts. */
  function ResponseParts(response: Response): (r: seq<Part>)
    ensures r != [] ==> response.candidates.Some? && |response.candidates.value| > 0
  {
    match response.candidates
    case None => []
    case Some(candidates) =>
      if candidates == [] then []
      else match candidates[0].content
        case None => []
        case Some(content) => if content.parts.Some? then content.parts.value else []
  }

  /** The index of the last part that carries `inlineData`, if any. */
  function LastImagePart(parts: seq<Part>): (r: Option<nat>)
    ensures r.Some? ==> r.value < |parts| && parts[r.value].inlineData.Some?
    ensures r.Some? ==> forall j :: r.value < j < |parts| ==> parts[j].inlineData.None?
    ensures r.None? ==> forall j :: 0 <= j < |parts| ==> parts[j].inlineData.None?
    decreases |parts|
  {
    if parts == [] then None
    else if parts[|parts| - 1].inlineData.Some? then Some(|parts| - 1)
    else LastImagePart(parts[..|parts| - 1])
  }

  /** The `data` of that last image-bearing part (`None` when there is none or
      its data is `undefined`). */
  function ImageData(parts: seq<Part>): (r: Option<string>)
    // Whatever is kept came from some part of the reply.
    ensures r.Some? ==> exists j :: 0 <= j < |parts| && parts[j].inlineData.Some? && parts[j].inlineData.value.data == r
    ensures (forall j :: 0 <= j < |parts| ==> parts[j].inlineData.None?) ==> r == None
  {
    match LastImagePart(parts)
    case None => None
    case Some(j) => parts[j].inlineData.value.data
  }

  /** The scan of the reply: every part with `inlineData` overwrites the
      candidate, and the loop never stops early. */
  method ScanResponse(response: Response) returns (newImageData: Option<string>)
    ensures newImageData == ImageData(ResponseParts(response))
  {
    newImageData := None;
    var parts := ResponseParts(response);
    for i := 0 to |parts|
      invariant newImageData == ImageData(parts[..i])
    {
      assert parts[..i + 1][..i] == parts[..i];
      if parts[i].inlineData.Some? {
        newImageData := parts[i].inlineData.value.data;
      }
    }
    assert parts[..|parts|] == parts;
  }

  /** The value stored as `generatedImage` after a reply: the data wrapped as a
      PNG data URL, or nothing when the data is missing or empty. */
  function StoredImage(newImageData: Option<string>): (r: Option<string>)
    ensures r.Some? <==> newImageData.Some? && newImageData.value != ""
    ensures r.Some? ==> DataUrlPrefix <= r.value && r.value[|DataUrlPrefix|..] == newImageData.value
  {
    if newImageData.Some? && newImageData.value != "" then
      var url := DataUrlPrefix + newImageData.value;
      ConcatParts(DataUrlPrefix, newImageData.value);
      Some(url)
    else None
  }

  /** Storing an image and later taking `split(',')[1]` of it gives back the
      base64 data that came in the reply. */
  lemma StoredImageRoundTrip(data: string)
    requires data != "" && ',' !in data
    ensures StoredImage(Some(data)).Some?
    ensures Payload(StoredImage(Some(data)).value) == Some(data)
  {
    assert DataUrlPrefix == "data:image/png;base64" + ",";
    SecondFieldRoundTrip("data:image/png;base64", data);
  }

  /** An image that is not the first part is still found. */
  lemma TextThenImage(text: string, data: string)
    ensures ImageData([TextPart(text), ImagePart(Some(data))]) == Some(data)
  {
  }

  /** With two image parts the later one wins: the first is not what is kept. */
  lemma LaterImageWins(first: string, second: string)
    ensures ImageData([ImagePart(Some(first)), ImagePart(Some(second))]) == Some(second)
  {
  }

  /** A last image part whose data is missing hides an earlier image. */
  lemma MissingLastDataHidesEarlierImage(data: string, text: string)
    ensures ImageData([ImagePart(Some(data)), Part(Some(Blob(None, PngMime)), Some(text))]) == None
  {
  }

  /** When exactly one part carries `inlineData`, "last" and "first" coincide:
      that part's data is returned. */
  lemma SingleImagePartFound(parts: seq<Part>, k: nat)
    requires k < |parts| && parts[k].inlineData.Some?
    requires forall j :: 0 <= j < |parts| && j != k ==> parts[j].inlineData.None?
    ensures ImageData(parts) == parts[k].inlineData.value.data
  {
  }
}

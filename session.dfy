/**
 * The page's session state and its submit flow: key gating for the premium
 * model, the request, and how the reply or the error lands in the flags.
 */
module Session {
  import opened Wrappers
  import opened JsText
  import Gallery
  import opened Prompt
  import opened Generation

  const FlashModel := "gemini-2.5-flash-image"
  const ProModel := "gemini-3-pro-image-preview"
  const NotFoundText := "Requested entity was not found"
  const FallbackError := "An unexpected error occurred."
  const ContextError := "Could not initialize canvas context"
  const FailedNotice := "Failed to generate image. Please try again."

  /** The host's optional key-selection hooks: whether `openSelectKey` exists,
      and what `hasSelectedApiKey` answers (`None` when that hook is absent). */
  datatype Host = Host(hasOpenSelectKey: bool, selectedKey: Option<bool>)

  /** What the `generateContent` call does: answers, or throws an error whose
      `message` is given ("" when it has none). */
  datatype Reply = Answered(response: Response) | Threw(message: string)

  /** What one submit did beyond the page state: how often the key picker was
      invoked, the request sent (if any) and the blocking notices shown. */
  datatype Effects = Effects(pickerOpened: nat, request: Option<Request>, notices: seq<string>)

  /** Submitting with the premium model and no confirmed key only asks for a key. */
  predicate Gated(selectedModel: string, hasKey: bool) {
    selectedModel == ProModel && !hasKey
  }

  /** The error a submit that got past the gate and found the canvas ends in:
      the snapshot context failing, or the call throwing. */
  function SubmitError(contextAvailable: bool, reply: Reply): (r: Option<string>)
    ensures !contextAvailable ==> r == Some(ContextError)
    ensures contextAvailable ==> (r.Some? <==> reply.Threw?)
    ensures contextAvailable && reply.Threw? ==> r == Some(reply.message)
  {
    if !contextAvailable then Some(ContextError)
    else if reply.Threw? then Some(reply.message)
    else None
  }

  /** The text the error modal shows: the error's message, or a fixed fallback
      when it has none. */
  function ErrorText(message: string): (r: string)
    ensures r != ""
    ensures message != "" ==> r == message
    ensures message == "" ==> r == FallbackError
  {
    if message != "" then message else FallbackError
  }

  /** An error whose message mentions the missing entity drops the key. */
  predicate ResetsKey(message: string) {
    Includes(message, NotFoundText)
  }

  /** The snapshot failure does not mention the missing entity, and neither does
      an error without a message: neither drops the key. */
  lemma {:induction false} OtherErrorsKeepKey()
    ensures !ResetsKey(ContextError)
    ensures !ResetsKey("")
  {
    forall i | 0 <= i <= |ContextError|
      ensures !OccursAt(ContextError, NotFoundText, i)
    {
      if i + |NotFoundText| <= |ContextError| {
        // Only the first six positions leave room, and none holds the phrase's 'R'.
        assert ContextError[i..i + |NotFoundText|][0] == ContextError[i] != NotFoundText[0];
      }
    }
  }

  /** The component's state. */
  class Home {
    var hasKey: bool
    var isLoading: bool
    var showErrorModal: bool
    var errorMessage: string
    var generatedImage: Option<string>
    var selectedModel: string
    var isPrecise: bool
    var prompt: string
    const references: Gallery.References

    constructor ()
      ensures !hasKey && !isLoading && !showErrorModal && errorMessage == ""
      ensures generatedImage == None && selectedModel == FlashModel && isPrecise && prompt == ""
      ensures fresh(references) && references.Valid()
      ensures references.images == [] && references.names == []
    {
      hasKey, isLoading, showErrorModal, errorMessage := false, false, false, "";
      generatedImage, selectedModel, isPrecise, prompt := None, FlashModel, true, "";
      references := new Gallery.References();
    }

    /** The mount-time key check: adopts the host's answer when the hook exists. */
    method CheckKey(host: Host)
      modifies this`hasKey
      ensures hasKey == if host.selectedKey.Some? then host.selectedKey.value else old(hasKey)
    {
      if host.selectedKey.Some? {
        hasKey := host.selectedKey.value;
      }
    }

    /** `openKeyPicker`: when the host offers a picker, opens it and then assumes
        a key was chosen; otherwise does nothing. */
    method OpenKeyPicker(host: Host) returns (invoked: bool)
      modifies this`hasKey
      ensures invoked == host.hasOpenSelectKey
      ensures hasKey == (host.hasOpenSelectKey || old(hasKey))
    {
      invoked := host.hasOpenSelectKey;
      if invoked {
        hasKey := true;
      }
    }

    method SelectModel(model: string)
      modifies this`selectedModel
      ensures selectedModel == model
    {
      selectedModel := model;
    }

    method TogglePrecise()
      modifies this`isPrecise
      ensures isPrecise == !old(isPrecise)
    {
      isPrecise := !isPrecise;
    }

    method SetPrompt(text: string)
      modifies this`prompt
      ensures prompt == text
    {
      prompt := text;
    }

    method CloseErrorModal()
      modifies this`showErrorModal
      ensures !showErrorModal
    {
      showErrorModal := false;
    }

    /** The state part of clearing the canvas: when the canvas and its drawing
        context exist the generated background is dropped, otherwise nothing happens. */
    method ClearCanvas(contextAvailable: bool)
      modifies this`generatedImage
      ensures generatedImage == if contextAvailable then None else old(generatedImage)
    {
      if contextAvailable {
        generatedImage := None;
      }
    }

    /** The `catch` block: the missing-entity error drops the key and reopens the
        picker; every error opens the modal with its message. */
    method ReportError(host: Host, message: string) returns (pickerOpened: nat)
      modifies this`hasKey, this`errorMessage, this`showErrorModal
      ensures showErrorModal && errorMessage == ErrorText(message)
      ensures ResetsKey(message) ==>
        hasKey == host.hasOpenSelectKey && pickerOpened == if host.hasOpenSelectKey then 1 else 0
      ensures !ResetsKey(message) ==> hasKey == old(hasKey) && pickerOpened == 0
    {
      pickerOpened := 0;
      if Includes(message, NotFoundText) {
        hasKey := false;
        var invoked := OpenKeyPicker(host);
        pickerOpened := if invoked then 1 else 0;
      }
      errorMessage := ErrorText(message);
      showErrorModal := true;
    }

    /** A reply that arrived: its last image part becomes the background, or the
        failure notice is shown and the background kept. */
    method AcceptReply(response: Response) returns (notices: seq<string>)
      modifies this`generatedImage
      ensures var stored := StoredImage(ImageData(ResponseParts(response)));
              && (stored.Some? ==> generatedImage == stored && notices == [])
              && (stored.None? ==> generatedImage == old(generatedImage) && notices == [FailedNotice])
    {
      var newImageData := ScanResponse(response);
      if newImageData.Some? && newImageData.value != "" {
        generatedImage := Some(DataUrlPrefix + newImageData.value);
        notices := [];
      } else {
        notices := [FailedNotice];
      }
    }

    /** The `try`/`catch`/`finally` of `handleSubmit`, once the gate is passed and
        the canvas is mounted. `images` and `finalPrompt` are what the page
        holds at that moment, `contextAvailable` says whether the snapshot's
        drawing context exists, `snapshotUrl` is the flattened canvas as a data
        URL, and `reply` is what the call does. */
    method Generate(host: Host, images: seq<string>, finalPrompt: string,
                    contextAvailable: bool, snapshotUrl: string, reply: Reply)
      returns (fx: Effects)
      modifies this`isLoading, this`hasKey, this`errorMessage, this`showErrorModal, this`generatedImage
      // Every path that starts loading ends with loading cleared.
      ensures !isLoading
      // The request goes out exactly when the snapshot could be taken, in the outbound order.
      ensures fx.request.Some? <==> contextAvailable
      ensures fx.request.Some? ==>
        && fx.request.value == Request(selectedModel, UserRole, fx.request.value.parts, AspectRatio)
        && OrderedParts(fx.request.value.parts, images, Payload(snapshotUrl), finalPrompt)
      // An error opens the modal with its message; the missing-entity error also drops the key and reopens the picker.
      ensures SubmitError(contextAvailable, reply).Some? ==>
        var message := SubmitError(contextAvailable, reply).value;
        && showErrorModal && errorMessage == ErrorText(message)
        && generatedImage == old(generatedImage) && fx.notices == []
        && (ResetsKey(message) ==>
              hasKey == host.hasOpenSelectKey && fx.pickerOpened == if host.hasOpenSelectKey then 1 else 0)
        && (!ResetsKey(message) ==> hasKey == old(hasKey) && fx.pickerOpened == 0)
      // A reply stores the last image part's data, or shows the failure notice.
      ensures SubmitError(contextAvailable, reply).None? ==>
        var stored := StoredImage(ImageData(ResponseParts(reply.response)));
        && hasKey == old(hasKey) && fx.pickerOpened == 0
        && showErrorModal == old(showErrorModal) && errorMessage == old(errorMessage)
        && (stored.Some? ==> generatedImage == stored && fx.notices == [])
        && (stored.None? ==> generatedImage == old(generatedImage) && fx.notices == [FailedNotice])
    {
      isLoading := true;
      if !contextAvailable {
        var pickerOpened := ReportError(host, ContextError);
        isLoading := false;
        return Effects(pickerOpened, None, []);
      }
      var drawingData := Payload(snapshotUrl);
      var parts := BuildParts(images, drawingData, finalPrompt);
      var request := Request(selectedModel, UserRole, parts, AspectRatio);
      match reply
      case Threw(message) =>
        var pickerOpened := ReportError(host, message);
        isLoading := false;
        fx := Effects(pickerOpened, Some(request), []);
      case Answered(response) =>
        var notices := AcceptReply(response);
        isLoading := false;
        fx := Effects(0, Some(request), notices);
    }

    /** The prompt the page would send now: the gallery's names and size, the
        precision flag and the prompt text. */
    function ComposedPrompt(): (r: string)
      reads this, references
      ensures Opening(isPrecise) + CharacterIdentities(references.names) <= r
    {
      FinalPrompt(references.names, isPrecise, prompt, |references.images|)
    }

    /** `handleSubmit`: the premium model without a key only opens the picker;
        without a mounted canvas nothing happens; otherwise `Generate` runs on
        the gallery and the composed prompt. */
    method Submit(host: Host, canvasMounted: bool, contextAvailable: bool, snapshotUrl: string, reply: Reply)
      returns (fx: Effects)
      modifies this`isLoading, this`hasKey, this`errorMessage, this`showErrorModal, this`generatedImage
      // Gate: only the picker, no request, no loading.
      ensures old(Gated(selectedModel, hasKey)) ==>
        && fx == Effects(if host.hasOpenSelectKey then 1 else 0, None, [])
        && hasKey == host.hasOpenSelectKey
        && isLoading == old(isLoading) && showErrorModal == old(showErrorModal)
        && errorMessage == old(errorMessage) && generatedImage == old(generatedImage)
      // No canvas: nothing happens.
      ensures !old(Gated(selectedModel, hasKey)) && !canvasMounted ==>
        && fx == Effects(0, None, [])
        && hasKey == old(hasKey) && isLoading == old(isLoading) && showErrorModal == old(showErrorModal)
        && errorMessage == old(errorMessage) && generatedImage == old(generatedImage)
      // Otherwise loading ends cleared, and the request, if sent, is this page's.
      ensures !old(Gated(selectedModel, hasKey)) && canvasMounted ==>
        && !isLoading
        && (fx.request.Some? <==> contextAvailable)
      ensures !old(Gated(selectedModel, hasKey)) && canvasMounted && fx.request.Some? ==>
        && fx.request.value.model == old(selectedModel)
        && OrderedParts(fx.request.value.parts, old(references.images), Payload(snapshotUrl),
                        old(ComposedPrompt()))
      ensures !old(Gated(selectedModel, hasKey)) && canvasMounted && SubmitError(contextAvailable, reply).Some? ==>
        var message := SubmitError(contextAvailable, reply).value;
        && showErrorModal && errorMessage == ErrorText(message)
        && generatedImage == old(generatedImage) && fx.notices == []
        && (ResetsKey(message) ==>
              hasKey == host.hasOpenSelectKey && fx.pickerOpened == if host.hasOpenSelectKey then 1 else 0)
        && (!ResetsKey(message) ==> hasKey == old(hasKey) && fx.pickerOpened == 0)
      ensures !old(Gated(selectedModel, hasKey)) && canvasMounted && SubmitError(contextAvailable, reply).None? ==>
        var stored := StoredImage(ImageData(ResponseParts(reply.response)));
        && hasKey == old(hasKey) && fx.pickerOpened == 0
        && showErrorModal == old(showErrorModal) && errorMessage == old(errorMessage)
        && (stored.Some? ==> generatedImage == stored && fx.notices == [])
        && (stored.None? ==> generatedImage == old(generatedImage) && fx.notices == [FailedNotice])
    {
      if Gated(selectedModel, hasKey) {
        var invoked := OpenKeyPicker(host);
        return Effects(if invoked then 1 else 0, None, []);
      }
      if !canvasMounted {
        return Effects(0, None, []);
      }
      var images := references.images;
      var finalPrompt := ComposedPrompt();
      fx := Generate(host, images, finalPrompt, contextAvailable, snapshotUrl, reply);
    }
  }
}

# Co-drawing page: a Dafny model of `Home.tsx`

`Home.tsx` is the single page of a sketch-to-illustration app. The user draws
on a canvas, attaches up to five character reference images, names them,
types a task and submits. The page then builds one request for an image
model and stores the image that comes back as the canvas background. This
project models the page's logic, not its pixels:

- **Gallery** (`gallery.dfy`): the reference gallery. It is a class holding
  the two parallel arrays `referenceImages` and `referenceNames`. Its methods
  are the upload trigger with its cap of five, the append after a file was
  read, the rename and the removal by index.
- **Prompt** (`prompt.dfy`): the prompt composer. It builds one identity line
  per reference and joins them with `". "`. Next comes the strict or the
  creative instruction, then the `References are in Images 1 through N`
  legend, which appears only when there are references, and finally
  `Task: …`. With no references the strict prompt literally reads
  `STRICT CONSISTENCY: . Maintain …`; `Prompt.EmptyGalleryPrompt` states it.
- **Generation** (`generation.dfy`): the outbound parts and the reply scan.
  The parts are every reference's base64 payload, then the sketch, then the
  text. The scan walks the reply's parts and keeps the data of the **last**
  part that carries `inlineData`.
- **Session** (`session.dfy`): the page's state flags and `handleSubmit`.
  The premium model without a confirmed key only opens the key picker. Once
  loading starts, it always ends. An error opens the modal, and the error
  "Requested entity was not found" also drops the key and reopens the picker.
  A reply either stores the image or shows the failure notice.
- **ErrorParse** (`error_parse.dfy`): `parseError`, which the error modal
  applies to the stored message before showing it. The regular expression
  `{"error":(.*)}` is modelled exactly: leftmost match, greedy capture, and
  `.` not crossing a line terminator. `JSON.parse(...).message` is a
  parameter.
- **JsText** (`js_text.dfy`): the JavaScript string behaviour the page relies
  on. It covers decimal rendering of numbers in template literals,
  `Array.join`, `String.includes` and `split(',')[1]`.

Outside effects are parameters of the model:

- the host's optional key hooks are a `Host` value;
- whether the canvas and its drawing context exist are booleans;
- the flattened canvas is given as its data URL;
- the image model's reply is a `Reply` value: a response, or a thrown error
  with its message.

The reply scan is modelled as the code runs it, not as "the first image part":
the loop at Home.tsx:302-306 overwrites its candidate on every part with
`inlineData`, so the last one wins. `Generation.LaterImageWins` and
`Generation.MissingLastDataHidesEarlierImage` state the consequence.

## Model

| member | source | states |
|---|---|---|
| JsText.NatToString | Home.tsx:269 | a number renders as non-empty decimal digits with no leading zero |
| JsText.DecimalRoundTrip | Home.tsx:269 | reading the rendered digits back gives the number itself |
| JsText.NatToStringInjective | Home.tsx:269 | different indices render as different text, so no two references share an image number |
| JsText.Join | Home.tsx:270 | `join` of no lines is empty, of one line is that line, and any non-empty join opens with its first element |
| JsText.JoinSnoc | Home.tsx:268-270 | joining one more element appends the separator and that element, leaving the earlier text intact |
| JsText.Includes | Home.tsx:318 | `includes` holds when the phrase occurs at some position; the empty phrase is always included, and a longer phrase than the message never is |
| JsText.IncludesEmbedded | Home.tsx:318 | `includes` finds the phrase wherever it sits in the message |
| JsText.SecondField | Home.tsx:250 | `split(',')[1]` is undefined exactly when there is no comma; otherwise it is comma-free |
| JsText.SecondFieldRoundTrip | Home.tsx:250 | for a comma-free header and a comma-free payload, `split(',')[1]` returns the payload |
| Gallery.KeepOthers | Home.tsx:222-225 | the filter by index drops one element when the index is in range and none otherwise |
| Gallery.KeepOthersCuts | Home.tsx:222-225 | the filter removes exactly the element at the index and keeps the rest in order; an out-of-range index changes nothing |
| Gallery.RemovalShiftsDown | Home.tsx:222-225 | survivors before the index keep their position and those after it move down by one |
| Gallery.RemovalKeepsPairs | Home.tsx:222-225 | filtering both arrays removes the same image/name pair, so every remaining image keeps its own name |
| Gallery.References.constructor | Home.tsx:70-71 | the gallery starts with two empty arrays |
| Gallery.References.TriggerUpload | Home.tsx:191-197 | the file picker opens iff fewer than five references are held; otherwise the cap notice is shown |
| Gallery.References.HandleFileUpload | Home.tsx:199-212 | a file read to a non-empty data URL appends it and an empty name; no file or an empty result changes nothing; the arrays stay parallel |
| Gallery.References.UploadThroughUi | Home.tsx:191-212 | the trigger followed by the upload never takes the gallery past five and keeps the arrays parallel; at the cap, or with no file or an empty read, both arrays are unchanged; otherwise the image and an empty name are appended |
| Gallery.References.HandleNameChange | Home.tsx:214-220 | exactly one name changes; the images and all other names stay |
| Gallery.References.RemoveReference | Home.tsx:222-225 | both arrays lose the same index; they stay parallel and within the cap |
| Prompt.IdentityLine | Home.tsx:269 | a reference's line opens with `Image ` and its 1-based number |
| Prompt.CharacterIdentities | Home.tsx:268-270 | the identity text is empty exactly when there are no names, and otherwise opens with the first reference's line |
| Prompt.Label | Home.tsx:269 | a reference's label is never empty: its name, or `Character i+1` when unnamed |
| Prompt.IdentityLines | Home.tsx:268-269 | there is one identity line per name, in gallery order, numbered from 1 |
| Prompt.IdentitiesGrow | Home.tsx:268-270 | adding a reference appends `. ` and its own line to the identity text, leaving the earlier lines unchanged |
| Prompt.UnnamedFallback | Home.tsx:269 | an unnamed reference's line reads `Image i+1 is the character named 'Character i+1'` |
| Prompt.Instruction | Home.tsx:272-274 | the instruction opens with the mode's words directly followed by the identity text |
| Prompt.Legend | Home.tsx:276-278 | the legend is empty exactly when there are no references |
| Prompt.FinalPrompt | Home.tsx:265-278 | the prompt opens with the mode's words and every identity line, and ends with `Task: ` and the user's text |
| Prompt.LegendIffReferences | Home.tsx:276-278 | between the instruction with its blank line and the `Task:` line sits the legend, which is empty iff there are no references |
| Prompt.AfterInstruction | Home.tsx:276-278 | after the instruction come the blank line, the legend and the `Task:` line |
| Prompt.PrecisionOnlyChangesLeadingClause | Home.tsx:272-278 | toggling precision changes only the instruction; the text after it is identical |
| Prompt.EmptyGalleryPrompt | Home.tsx:272-278 | with no references the strict prompt is the opening words, then directly `. Maintain …`, then the `Task:` line, with no legend |
| Generation.Payload | Home.tsx:250 | a data URL's payload is missing exactly when the URL has no comma |
| Generation.OrderedPartsOneTextLast | Home.tsx:254-280 | in an outbound request only the last part is text, and every earlier part is a PNG image |
| Generation.BuildParts | Home.tsx:254-280 | the parts are the references' payloads in gallery order, then the sketch, then the prompt |
| Generation.ResponseParts | Home.tsx:300 | parts are found only through a present, non-empty candidate list |
| Generation.LastImagePart | Home.tsx:302-306 | the chosen index is the last part with `inlineData`; none follows it, and none exists when nothing is chosen |
| Generation.ImageData | Home.tsx:299-307 | the kept data always comes from a part of the reply that carries `inlineData`; with no such part nothing is kept |
| Generation.ScanResponse | Home.tsx:299-307 | the loop ends holding the data of the last image-bearing part of the first candidate |
| Generation.StoredImage | Home.tsx:309-313 | an image is stored iff the data is present and non-empty, as the PNG data-URL prefix followed by the data |
| Generation.StoredImageRoundTrip | Home.tsx:309-310 | the stored background is a data URL whose `split(',')[1]` payload, the one the page extracts from data URLs (line 250), is exactly the reply's data |
| Generation.TextThenImage | Home.tsx:301-306 | an image that is not the first part is still found |
| Generation.LaterImageWins | Home.tsx:302-306 | with two image parts the later one is kept, not the first |
| Generation.MissingLastDataHidesEarlierImage | Home.tsx:302-306 | a last image part with undefined data hides an earlier image, so nothing is stored |
| Generation.SingleImagePartFound | Home.tsx:302-306 | when exactly one part carries `inlineData`, its data is the result |
| Session.Gated | Home.tsx:230 | the gate holds exactly for the premium model without a confirmed key |
| Session.ResetsKey | Home.tsx:318 | an error drops the key exactly when its message includes "Requested entity was not found" |
| Session.OtherErrorsKeepKey | Home.tsx:314-321 | the snapshot failure thrown at line 244 and an error without a message never include that phrase, so they never drop the key or reopen the picker |
| Session.ErrorText | Home.tsx:322 | the stored modal text is never empty: the error's message, or the fixed fallback when the message is empty |
| Session.Home.constructor | Home.tsx:66-77 | initial state: no key, not loading, no modal, no image, the flash model, strict mode, empty prompt and gallery |
| Session.Home.CheckKey | Home.tsx:38-46 | the key flag adopts the host's answer when the hook exists and is left alone otherwise |
| Session.Home.OpenKeyPicker | Home.tsx:48-54 | the picker opens iff the host offers it, and then the key counts as chosen |
| Session.Home.SelectModel | Home.tsx:364 | the selected model becomes the chosen one |
| Session.Home.TogglePrecise | Home.tsx:378 | the precision flag flips |
| Session.Home.SetPrompt | Home.tsx:554 | the prompt text becomes the typed text |
| Session.Home.CloseErrorModal | Home.tsx:329 | the modal is hidden |
| Session.Home.ClearCanvas | Home.tsx:164-173 | with a canvas and context the background image is dropped; otherwise nothing changes |
| Session.Home.ReportError | Home.tsx:314-323 | the modal opens with the message; the missing-entity error drops the key and reopens the picker, any other error leaves the key |
| Session.Home.AcceptReply | Home.tsx:299-313 | the last image part's data becomes the background, or the failure notice is shown and the background kept |
| Session.Home.Generate | Home.tsx:236-326 | loading always ends cleared; the request is sent iff the snapshot context exists, in the outbound order; error and reply outcomes are as above |
| Session.Home.ComposedPrompt | Home.tsx:265-278 | the prompt sent is composed from the gallery's names, its image count as N, the precision flag and the typed text, and opens with the mode's words and the identity lines |
| Session.Home.Submit | Home.tsx:227-327 | the premium model without a key only opens the picker; without a canvas nothing happens; otherwise the page's own gallery and prompt are sent to the selected model and loading ends cleared; an error opens the modal, keeps the background and shows no notice, and the not-found error drops the key and reopens the picker (once, when the host has one); a reply leaves key, picker and modal alone and stores the image or shows the failure notice |
| ErrorParse.LineOf | Home.tsx:23 | `.*` spans the text up to the first line terminator |
| ErrorParse.LastIndexOf | Home.tsx:23 | finds the last occurrence of a character, and none exactly when it is absent |
| ErrorParse.CloseCapture | Home.tsx:23 | the greedy `(.*)}` captures up to a `}` with no further `}` after it on the line, without line terminators, and captures nothing when the line has no `}` |
| ErrorParse.FirstMatch | Home.tsx:23-24 | `exec` matches at the leftmost position where the pattern fits, and there is no match when it fits nowhere |
| ErrorParse.Capture | Home.tsx:23-27 | the captured group exists iff the pattern matches somewhere, and it is the leftmost match's greedy capture |
| ErrorParse.ParseError | Home.tsx:22-33 | the modal shows the raw message unless an embedded error object parses to a non-empty `message`; a message without `{"error":` is shown as it is |
| ErrorParse.WrappedBodyCaptured | Home.tsx:23-27 | a whole one-line `{"error":body}` captures exactly `body`, inner braces included |
| ErrorParse.ClosingBraceEndsCapture | Home.tsx:23 | the capture after the opener runs to the final `}` |
| ErrorParse.LineOfWholeLine | Home.tsx:23 | a text without line terminators is spanned whole by `.*` |
| ErrorParse.EmbeddedMessageShown | Home.tsx:22-33 | for such a message whose body parses to a non-empty `message`, the modal shows that message |

## Left out

- Canvas pixel work is not modelled: drawing, `getCoordinates`, the white fill, `drawImage`, background redraws and the image `onload` effect. The snapshot is given as its data URL.
- `handleExport` is not modelled; it only writes a PNG download link.
- FileReader and the file input are not modelled. The read's result is a parameter of `HandleFileUpload`, and resetting the input's value is not modelled.
- The GenAI client and the network are replaced by the `Reply` parameter. The API key from the environment is not modelled.
- The `window.aistudio` hooks are the `Host` parameter. The awaits of the asynchronous hooks and React's batching of state updates are not modelled: each handler runs to completion on the state it starts with.
- `alert` and the failure notice are returned as notices. `console.error` and the JSX rendering are left out, apart from the modal text (`ErrorParse.ParseError`) and the controls that call the handlers.
- Gallery.References.HandleNameChange: requires an index inside the array, which is how the page calls it (one input per rendered entry). The JavaScript behaviour of writing past the end, which extends the array with holes, is not modelled.
- Gallery.References.HandleFileUpload: like the source, it does not check the cap. The cap is kept only because the upload control refuses to open, as `UploadThroughUi` shows.
- Session.Reply: an error whose `message` is missing and one whose `message` is empty are the same value, `Threw("")`. The page treats both alike.
- ErrorParse.ParseError: `JSON.parse(...).message` is an abstract parameter. A thrown parse error, a `null` result and a non-string `message` are folded into `Throws` / `NoMessage`.
- Session.Home.Submit: while loading, the submit button is disabled; this model does not require `!isLoading`, just as the handler does not check it.
- Session.Home.Submit: the prompt input is `required` (Home.tsx:557), so the browser never submits an empty prompt. The model accepts any prompt, including the empty one the page never sends.
- Session.Home.OpenKeyPicker: the host's key picker is assumed to resolve. If its promise rejected inside the `catch` block (Home.tsx:320), the modal would not be set; this model does not cover that.

/** The non-photo file path of the file handler: which kind of file a
    message carries, the prompt built for it, and the wait for the uploaded
    file to leave the `PROCESSING` state. */
module Media {
  import opened Wrappers
  import opened Text

  /** The attachment a group message carries (at most one). A document's
      file name may be absent. */
  datatype Attachment =
    | Photo
    | Video
    | VideoNote
    | AudioFile
    | VoiceMessage
    | Document(fileName: Option<string>)
    | NoAttachment

  /** Outcome of classifying a non-photo attachment. */
  datatype Kind = Typed(fileType: string) | Untyped | KindError(message: string)

  const NoEndsWithText: string := "'NoneType' object has no attribute 'endswith'"

  /** The `if/elif` chain that picks the file type. */
  function FileKind(a: Attachment): (k: Kind)
    ensures k.Typed? ==> k.fileType in {"video", "audio", "pdf", "document"}
  {
    match a
    case Video => Typed("video")
    case VideoNote => Typed("video")
    case AudioFile => Typed("audio")
    case VoiceMessage => Typed("audio")
    case Document(name) =>
      if name.None? then KindError(NoEndsWithText)
      else if EndsWith(name.value, ".pdf") then Typed("pdf")
      else Typed("document")
    case Photo => Untyped
    case NoAttachment => Untyped
  }

  /** A document is a "pdf" exactly when its name ends with ".pdf" (case
      sensitive), any other named document a "document". */
  lemma DocumentKind(name: string)
    ensures FileKind(Document(Some(name))) == Typed(if EndsWith(name, ".pdf") then "pdf" else "document")
    ensures EndsWith(name + ".pdf", ".pdf")
  {
    var s := name + ".pdf";
    assert s[|s| - 4..] == ".pdf";
  }

  /** `' Caption: ' + caption if caption else ''`. */
  function CaptionPart(caption: string): (part: string)
    ensures caption == "" <==> part == ""
  {
    if caption != "" then " Caption: " + caption else ""
  }

  const ImagesSent: string := "\n\nUser has sent multiple images."
  const ImagesAsk: string := " Generate a response based on the content of the images, and our chat context. "
    + "Always follow the bot role, and talk like a human."

  /** The prompt sent with a batch of images. */
  function ImagePrompt(context: string, caption: string): string {
    context + ImagesSent + CaptionPart(caption) + ImagesAsk
  }

  /** What the file prompt says after the chat context. */
  function FileRequest(fileType: string, caption: string): string {
    "\n\nUser has sent a " + fileType + "." + CaptionPart(caption)
      + " Generate a response based on the content of the " + fileType + ", and our chat context, always follow role."
  }

  /** The prompt sent with an uploaded file. */
  function FilePrompt(context: string, fileType: string, caption: string): string {
    context + FileRequest(fileType, caption)
  }

  /** Both prompts lead with the whole chat context. */
  lemma PromptsKeepContext(context: string, fileType: string, caption: string)
    ensures ImagePrompt(context, caption)[..|context|] == context
    ensures FilePrompt(context, fileType, caption)[..|context|] == context
  {
    var image := ImagesSent + CaptionPart(caption) + ImagesAsk;
    assert ImagePrompt(context, caption) == context + image;
    LeadingPart(context, image);
    LeadingPart(context, FileRequest(fileType, caption));
  }

  lemma LeadingPart(a: string, b: string)
    ensures (a + b)[..|a|] == a
  {
  }

  /** Different captions give different image prompts: a caption never gets lost. */
  lemma ImagePromptKeepsCaption(context: string, c1: string, c2: string)
    requires c1 != c2
    ensures ImagePrompt(context, c1) != ImagePrompt(context, c2)
  {
    assert CaptionPart(c1) != CaptionPart(c2) by {
      if c1 != "" && c2 != "" {
        assert CaptionPart(c1)[10..] == c1 && CaptionPart(c2)[10..] == c2;
      }
    }
    MiddleDiffers(context + ImagesSent, CaptionPart(c1), CaptionPart(c2), ImagesAsk);
  }

  /** Text glued between the same head and tail keeps its differences. */
  lemma MiddleDiffers(head: string, x: string, y: string, tail: string)
    requires x != y
    ensures head + x + tail != head + y + tail
  {
    if |x| == |y| {
      var i :| 0 <= i < |x| && x[i] != y[i];
      assert (head + x + tail)[|head| + i] == x[i];
      assert (head + y + tail)[|head| + i] == y[i];
    } else {
      assert |head + x + tail| != |head + y + tail|;
    }
  }

  /** `ValueError(f"{file_type.capitalize()} failed to process.")`. */
  function UploadFailedText(fileType: string): string {
    Capitalize(fileType) + " failed to process."
  }

  /** The processing state the file service reports. */
  datatype FileState = Processing | Active | Failed

  /** The result of `upload_file_to_gemini`: the file once it left
      `PROCESSING`, after that many status checks, or the error it raised. */
  datatype Upload = Uploaded(checks: nat) | UploadError(message: string)

  /** `upload_file_to_gemini`: `states(0)` is the state right after the
      upload, `states(k)` the state after the k-th 10-second wait. The source
      waits for as long as the service says `PROCESSING`; `settled` names a
      check at which it no longer does. */
  method AwaitUpload(fileType: string, states: nat -> FileState, ghost settled: nat) returns (u: Upload)
    requires states(settled) != Processing
    ensures u.Uploaded? ==> states(u.checks) == Active
    ensures u.UploadError? ==> u.message == UploadFailedText(fileType)
    ensures u.UploadError? <==> exists k :: FirstSettled(states, k) && states(k) == Failed
    ensures u.Uploaded? ==> FirstSettled(states, u.checks)
    ensures u == UploadOf(fileType, states, settled)
  {
    var k: nat := 0;
    while states(k) == Processing
      invariant k <= settled
      invariant forall j :: 0 <= j < k ==> states(j) == Processing
      decreases settled - k
    {
      k := k + 1;
    }
    assert FirstSettled(states, k);
    FirstSettledUnique(states, k, SettledFrom(states, 0, settled));
    if states(k) == Failed {
      u := UploadError(UploadFailedText(fileType));
    } else {
      u := Uploaded(k);
      forall k' | FirstSettled(states, k') ensures states(k') != Failed {
        FirstSettledUnique(states, k, k');
      }
    }
  }

  /** The first check from `i` on at which the file is no longer processing. */
  function SettledFrom(states: nat -> FileState, i: nat, settled: nat): (k: nat)
    requires i <= settled && states(settled) != Processing
    ensures i <= k <= settled && states(k) != Processing
    ensures forall j :: i <= j < k ==> states(j) == Processing
    decreases settled - i
  {
    if states(i) != Processing then i else SettledFrom(states, i + 1, settled)
  }

  /** What `upload_file_to_gemini` ends with. */
  function UploadOf(fileType: string, states: nat -> FileState, settled: nat): Upload
    requires states(settled) != Processing
  {
    var k := SettledFrom(states, 0, settled);
    if states(k) == Failed then UploadError(UploadFailedText(fileType)) else Uploaded(k)
  }

  /** `k` is the first check at which the file is no longer processing. */
  predicate FirstSettled(states: nat -> FileState, k: nat) {
    states(k) != Processing && forall j :: 0 <= j < k ==> states(j) == Processing
  }

  lemma FirstSettledUnique(states: nat -> FileState, k1: nat, k2: nat)
    requires FirstSettled(states, k1) && FirstSettled(states, k2)
    ensures k1 == k2
  {
  }
}

/** The photo page of app/scan/page.tsx: the checks on an uploaded file,
    the chain "analyse the photo, then write an ice breaker from the
    analysis", and the vote on the result, which files an upvoted message
    in local storage. The file, the reader's result and the two models'
    answers are parameters. */
module ScanPage {
  import opened Wrappers
  import opened Text
  import IceBotStyles
  import IceBot
  import AiService
  import VisionService

  /** The part of the page's state the handlers change. */
  datatype ScanState = ScanState(selectedImage: Option<string>, generatedMessage: string)

  /** A chosen file: its MIME type and size in bytes. */
  datatype ImageFile = ImageFile(mimeType: string, size: nat)

  const MaxFileBytes: nat := 4 * 1024 * 1024

  const NotAnImage := "Please upload an image file"
  const FileTooLarge := "Image size should be less than 4MB"
  const ReadFailed := "Failed to read image file"
  const AnalyzeFallback := "Failed to analyze image." + " Please try again."
  const GenerateFallback := "Failed to generate message." + " Please try again."

  /** `handleImageUpload`. `read` is what the file reader leaves in
      `reader.result` when it is done: the data URL, or `None` when reading
      failed (the `loadend` handler runs in both cases). Returns the new
      state and the error shown, if any. */
  function HandleImageUpload(state: ScanState, file: Option<ImageFile>, read: Option<string>)
    : (r: (ScanState, Option<string>))
    ensures file.None? ==> r == (state, None)
    ensures file.Some? && !StartsWith(file.value.mimeType, "image/") ==> r == (state, Some(NotAnImage))
    ensures file.Some? && StartsWith(file.value.mimeType, "image/") && file.value.size > MaxFileBytes ==>
      r == (state, Some(FileTooLarge))
    ensures file.Some? && StartsWith(file.value.mimeType, "image/") && file.value.size <= MaxFileBytes ==>
      r == (ScanState(read, ""), if read.None? then Some(ReadFailed) else None)
    ensures r.0 != state ==>
      file.Some? && StartsWith(file.value.mimeType, "image/") && file.value.size <= MaxFileBytes &&
      r.0 == ScanState(read, "")
  {
    if file.None? then (state, None)
    else if !StartsWith(file.value.mimeType, "image/") then (state, Some(NotAnImage))
    else if file.value.size > MaxFileBytes then (state, Some(FileTooLarge))
    else (ScanState(read, ""), if read.None? then Some(ReadFailed) else None)
  }

  /** A file of exactly 4 MiB is taken; one byte more is refused. */
  lemma SizeBoundInclusive(state: ScanState, mimeType: string, read: Option<string>)
    requires StartsWith(mimeType, "image/")
    ensures HandleImageUpload(state, Some(ImageFile(mimeType, MaxFileBytes)), read).0 == ScanState(read, "")
    ensures HandleImageUpload(state, Some(ImageFile(mimeType, MaxFileBytes + 1)), read) == (state, Some(FileTooLarge))
  {
  }

  /** An accepted file replaces the selected image and clears the message
      written for the previous one. */
  lemma AcceptedFileClearsMessage(state: ScanState, file: ImageFile, dataUrl: string)
    requires StartsWith(file.mimeType, "image/") && file.size <= MaxFileBytes
    ensures HandleImageUpload(state, Some(file), Some(dataUrl)) == (ScanState(Some(dataUrl), ""), None)
  {
  }

  /** The style the page asks for. Its object names `cooking` and
      `question` (true) and leaves out `asshole`, so `generatePrompt` sees
      funny, flirty and question. */
  const ScanStyle := IceBotStyles.PromptStyle(
    funny := true, flirty := true, serious := false, pervy := false, corny := false,
    knockKnock := false, cooking := false, question := true, asshole := false)

  /** Whether a selected image lets the handlers go on (`if (!selectedImage)`). */
  predicate HasImage(state: ScanState) {
    state.selectedImage.Some? && state.selectedImage.value != ""
  }

  /** The outcome of "analyse the photo, then write an ice breaker from the
      analysis": the first failure's message, or the normalised reply. */
  function ChainResult(image: string, vision: VisionService.VisionReply, reply: AiService.Completion)
    : (r: Result<string>)
    ensures VisionService.AnalyzeProfileImage(image, vision).result.Err? ==>
      r == Err(VisionService.AnalyzeProfileImage(image, vision).result.message)
    ensures VisionService.AnalyzeProfileImage(image, vision).result.Ok? ==>
      r == (if reply.Content? then Ok(AiService.Normalize(reply.text)) else Err(AiService.GenerateFailure))
    ensures r.Err? ==> r.message != ""
  {
    match VisionService.AnalyzeProfileImage(image, vision).result
    case Err(message) => Err(message)
    case Ok(_) =>
      if reply.Content? then Ok(AiService.Normalize(reply.text)) else Err(AiService.GenerateFailure)
  }

  /** Runs the chain: the analysis first, and, only when it succeeds, the
      ice breaker, asked for with the analysis as the profile text and the
      page's style. */
  method AnalyzeThenGenerate(store: AiService.LocalStore, image: string,
                             vision: VisionService.VisionReply, reply: AiService.Completion)
    returns (request: Option<AiService.ChatRequest>, result: Result<string>)
    modifies store
    ensures result == ChainResult(image, vision, reply)
    ensures VisionService.AnalyzeProfileImage(image, vision).result.Err? ==>
      request == None && unchanged(store)
    ensures VisionService.AnalyzeProfileImage(image, vision).result.Ok? ==>
      request == Some(AiService.MessageRequest(VisionService.AnalyzeProfileImage(image, vision).result.value, ScanStyle))
    ensures store.feedback == old(store.feedback)
    ensures result.Ok? ==> store.usedResponses == AiService.PushBounded(old(store.usedResponses), result.value)
    ensures result.Err? ==> store.usedResponses == old(store.usedResponses)
  {
    var analysis := VisionService.AnalyzeProfileImage(image, vision);
    if analysis.result.Err? {
      return None, Err(analysis.result.message);
    }
    var sent;
    sent, result := store.GenerateAIMessage(analysis.result.value, ScanStyle, reply);
    request := Some(sent);
  }

  /** The toast text for a failure: `error.message || fallback`. */
  function ErrorText(message: string, fallback: string): string {
    if message != "" then message else fallback
  }

  /** `analyzeProfile`: without an image nothing happens; otherwise the
      message is cleared, then replaced by the new ice breaker, or left
      empty with the failure shown. */
  method AnalyzeProfile(store: AiService.LocalStore, state: ScanState,
                        vision: VisionService.VisionReply, reply: AiService.Completion)
    returns (next: ScanState, error: Option<string>)
    modifies store
    ensures !HasImage(state) ==> next == state && error == None && unchanged(store)
    ensures HasImage(state) ==>
      match ChainResult(state.selectedImage.value, vision, reply)
      case Ok(message) => next == state.(generatedMessage := message) && error == None
      case Err(message) => next == state.(generatedMessage := "") && error == Some(message)
  {
    if !HasImage(state) {
      return state, None;
    }
    var _, result := AnalyzeThenGenerate(store, state.selectedImage.value, vision, reply);
    match result
    case Ok(message) =>
      next, error := state.(generatedMessage := message), None;
    case Err(message) =>
      next, error := state.(generatedMessage := ""), Some(ErrorText(message, AnalyzeFallback));
  }

  /** `regenerateMessage`: the same chain, but the message is not cleared
      first, so a failure leaves the previous one in place. */
  method RegenerateMessage(store: AiService.LocalStore, state: ScanState,
                           vision: VisionService.VisionReply, reply: AiService.Completion)
    returns (next: ScanState, error: Option<string>)
    modifies store
    ensures !HasImage(state) ==> next == state && error == None && unchanged(store)
    ensures HasImage(state) ==>
      match ChainResult(state.selectedImage.value, vision, reply)
      case Ok(message) => next == state.(generatedMessage := message) && error == None
      case Err(message) => next == state && error == Some(message)
  {
    if !HasImage(state) {
      return state, None;
    }
    var _, result := AnalyzeThenGenerate(store, state.selectedImage.value, vision, reply);
    match result
    case Ok(message) =>
      next, error := state.(generatedMessage := message), None;
    case Err(message) =>
      next, error := state, Some(ErrorText(message, GenerateFallback));
  }

  /** The prompt written from a photo ends with the rule asking for a
      question, whatever the analysis says. */
  lemma ScanPromptAsksQuestion(analysis: string)
    ensures EndsWith(AiService.MessageRequest(analysis, ScanStyle).user,
                     IceBot.MaxSentences + IceBot.QuestionRule + IceBot.RulesTail)
  {
    IceBot.QuestionRuleIff(analysis, IceBot.StyleGuide(ScanStyle, IceBotStyles.Labels(IceBotStyles.ActiveModes(ScanStyle))), true);
  }

  /** `handleVote`: an upvote appends the message shown (whatever it is) to
      the `savedMessages` list of local storage; every vote then clears the
      message and the image. */
  function HandleVote(state: ScanState, saved: seq<string>, isUpvote: bool): (r: (ScanState, seq<string>))
    ensures r.0 == ScanState(None, "")
    ensures isUpvote ==> r.1 == saved + [state.generatedMessage]
    ensures !isUpvote ==> r.1 == saved
  {
    (ScanState(None, ""), if isUpvote then saved + [state.generatedMessage] else saved)
  }

  /** After any vote the analysis handlers do nothing until a new image is
      chosen. */
  lemma VoteDisablesAnalysis(state: ScanState, saved: seq<string>, isUpvote: bool)
    ensures !HasImage(HandleVote(state, saved, isUpvote).0)
  {
  }
}

/** The image analysis client of lib/vision-service.ts: it turns the image
    into a data URL, refuses payloads estimated above 4 MiB before asking
    anything, and returns the analysis text the vision model gives back.
    The model's answer is a parameter. */
module VisionService {
  import opened Wrappers
  import opened Text

  const DataPrefix := "data:"

  /** The header put in front of bare base64 data. */
  const JpegHeader := "data:image/jpeg;base64,"

  /** `4 * 1024 * 1024`. */
  const MaxImageBytes: nat := 4 * 1024 * 1024

  const TooLarge := "Image size too large." + " Please use an image under 4MB."
  const NoAnalysis := "No analysis generated"
  const AnalyzeFailure := "Failed to analyze image." + " Please try again."

  /** The data URL sent to the model: input that already starts with
      "data:" is used as it is; anything else gets the JPEG header. */
  function ToDataUrl(image: string): (r: string)
    ensures StartsWith(r, DataPrefix)
    ensures StartsWith(image, DataPrefix) ==> r == image
    ensures !StartsWith(image, DataPrefix) ==> r == JpegHeader + image
  {
    if StartsWith(image, DataPrefix) then image
    else
      StartsWithLeft(JpegHeader, image);
      assert JpegHeader == DataPrefix + "image/jpeg;base64,";
      StartsWithLeft(DataPrefix, "image/jpeg;base64,");
      StartsWithAppend(JpegHeader, DataPrefix, image);
      JpegHeader + image
  }

  /** Making a data URL of a data URL changes nothing. */
  lemma ToDataUrlIdempotent(image: string)
    ensures ToDataUrl(ToDataUrl(image)) == ToDataUrl(image)
  {
  }

  /** `Math.ceil((length * 3) / 4)`: the bytes the base64 text is taken to
      encode, header included. */
  function SizeEstimate(payload: string): (r: nat)
    ensures 4 * r >= 3 * |payload| && 4 * r < 3 * |payload| + 4
  {
    (3 * |payload| + 3) / 4
  }

  /** A payload passes the size check exactly when it is at most 5592405
      characters long. */
  lemma SizeLimitInCharacters(payload: string)
    ensures SizeEstimate(payload) <= MaxImageBytes <==> |payload| <= 5592405
  {
  }

  /** What the vision endpoint gives back, as far as the code looks at it:
      a non-OK status with the `error` field of its body (empty when the
      body has none or cannot be read), a body with or without a string at
      `choices[0].message.content`, or an exception from the transport. */
  datatype VisionReply =
    | NotOk(status: nat, errorField: string)
    | Body(content: Option<string>)
    | Thrown(message: string)

  /** The analysis and whether a request was made, with the data URL it
      carried. */
  datatype Analysis = Analysis(requested: Option<string>, result: Result<string>)

  /** The message of the error the `catch` clause rethrows:
      `error.message || 'Failed to analyze image. Please try again.'`. */
  function Rethrown(message: string): (r: string)
    ensures r != ""
    ensures message != "" ==> r == message
  {
    if message != "" then message else AnalyzeFailure
  }

  /** The message of the error raised for a reply. */
  function ReplyError(reply: VisionReply): string {
    match reply
    case NotOk(status, errorField) =>
      if errorField != "" then errorField else "API error: " + NatToString(status)
    case Body(_) => NoAnalysis
    case Thrown(message) => message
  }

  /** `analyzeProfileImage`. */
  function AnalyzeProfileImage(image: string, reply: VisionReply): (r: Analysis)
    ensures r.requested.None? <==> SizeEstimate(ToDataUrl(image)) > MaxImageBytes
    ensures r.requested.None? ==> r.result == Err(TooLarge)
    ensures r.requested.Some? ==> r.requested.value == ToDataUrl(image)
    ensures r.requested.Some? && reply.Body? && reply.content.Some? && reply.content.value != "" ==>
      r.result == Ok(reply.content.value)
    ensures r.requested.Some? && !(reply.Body? && reply.content.Some? && reply.content.value != "") ==>
      r.result == Err(Rethrown(ReplyError(reply)))
  {
    var url := ToDataUrl(image);
    if SizeEstimate(url) > MaxImageBytes then Analysis(None, Err(Rethrown(TooLarge)))
    else
      var result :=
        match reply
        case Body(Some(content)) =>
          if content != "" then Ok(content) else Err(Rethrown(NoAnalysis))
        case _ => Err(Rethrown(ReplyError(reply)));
      Analysis(Some(url), result)
  }

  /** The analysis is handed back exactly as the model wrote it, surrounding
      whitespace included. */
  lemma AnalysisUntrimmed(image: string, content: string)
    requires SizeEstimate(ToDataUrl(image)) <= MaxImageBytes
    requires content != ""
    ensures AnalyzeProfileImage(image, Body(Some(" " + content + "\n"))).result == Ok(" " + content + "\n")
  {
  }

  /** An empty or missing analysis is reported as "No analysis generated". */
  lemma EmptyAnalysisRejected(image: string, content: Option<string>)
    requires SizeEstimate(ToDataUrl(image)) <= MaxImageBytes
    requires content.None? || content == Some("")
    ensures AnalyzeProfileImage(image, Body(content)).result == Err(NoAnalysis)
  {
  }

  /** The message of a failure is kept when it is rethrown. */
  lemma ErrorMessagePreserved(image: string, message: string)
    requires SizeEstimate(ToDataUrl(image)) <= MaxImageBytes
    requires message != ""
    ensures AnalyzeProfileImage(image, Thrown(message)).result == Err(message)
    ensures AnalyzeProfileImage(image, NotOk(500, message)).result == Err(message)
  {
  }
}

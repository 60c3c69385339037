/** The server route of app/api/analyze/route.ts: three checks on the
    posted image, in order, each answered with status 400; a checked image
    is forwarded, as the full data URL, to the vision model, whose answer
    becomes the analysis or a status-500 error. The request body and the
    model's answer are parameters. */
module AnalyzeRoute {
  import opened Wrappers
  import opened Text
  import opened Seqs

  const ImagePrefix := "data:image/"

  const NoImage := "No image provided"
  const InvalidFormat := "Invalid image format"
  const InvalidData := "Invalid image data"
  const NoAnalysis := "No analysis generated"
  const AnalyzeFailure := "Failed to analyze image"

  /** The posted body: unreadable as JSON (with the parser's message), or
      read, with its `image` field when that is a string (`None` when it is
      absent or null). */
  datatype RequestBody = Unparsable(message: string) | Parsed(image: Option<string>)

  /** What the vision model gives back: a first choice with or without
      content, or an exception with its message. */
  datatype VisionCompletion = Completed(content: Option<string>) | Failed(message: string)

  datatype ResponseBody = ErrorBody(error: string) | AnalysisBody(analysis: string)

  /** The response, and the image URL sent to the model if the route got
      that far. */
  datatype Response = Response(status: nat, body: ResponseBody, forwarded: Option<string>)

  /** `s.split(',')[1]`: the text between the first comma and the next one
      (or the end), or `None` when there is no comma. */
  function SecondField(s: string): (r: Option<string>)
    ensures r.None? <==> ',' !in s
    ensures r.Some? ==> ',' !in r.value && IsInfix("," + r.value, s)
  {
    match FirstIndexWhere(s, (c: char) => c == ',')
    case None => None
    case Some(i) =>
      var rest := s[i + 1..];
      var field := match FirstIndexWhere(rest, (c: char) => c == ',')
        case None => rest
        case Some(j) => rest[..j];
      assert s[i..i + 1 + |field|] == "," + field;
      assert InfixAt("," + field, s, i);
      Some(field)
  }

  /** The three input checks, in order; `Ok` carries the image that passed. */
  function CheckImage(image: Option<string>): (r: Result<string>)
    ensures r.Ok? <==> image.Some? && image.value != "" && StartsWith(image.value, ImagePrefix) &&
                       SecondField(image.value).Some? && SecondField(image.value).value != ""
    ensures r.Ok? ==> r.value == image.value
    ensures image.None? || image.value == "" ==> r == Err(NoImage)
    ensures image.Some? && image.value != "" && !StartsWith(image.value, ImagePrefix) ==> r == Err(InvalidFormat)
    ensures (image.Some? && StartsWith(image.value, ImagePrefix) &&
             (SecondField(image.value).None? || SecondField(image.value).value == "")) ==>
            r == Err(InvalidData)
  {
    if image.None? || image.value == "" then Err(NoImage)
    else if !StartsWith(image.value, ImagePrefix) then Err(InvalidFormat)
    else
      var field := SecondField(image.value);
      if field.None? || field.value == "" then Err(InvalidData)
      else Ok(image.value)
  }

  /** `POST`. */
  function Post(body: RequestBody, completion: VisionCompletion): (r: Response)
    ensures body.Unparsable? ==> r == Response(500, ErrorBody(Rethrown(body.message)), None)
    ensures body.Parsed? && CheckImage(body.image).Err? ==>
      r == Response(400, ErrorBody(CheckImage(body.image).message), None)
    ensures body.Parsed? && CheckImage(body.image).Ok? ==> r.forwarded == body.image
    ensures r.status == 200 <==> r.body.AnalysisBody?
    ensures r.status == 200 ==>
      completion == Completed(Some(r.body.analysis)) && r.body.analysis != ""
    ensures body.Parsed? && CheckImage(body.image).Ok? && completion.Completed? &&
            completion.content.Some? && completion.content.value != "" ==>
      r == Response(200, AnalysisBody(completion.content.value), body.image)
    ensures body.Parsed? && CheckImage(body.image).Ok? && completion.Completed? &&
            (completion.content.None? || completion.content.value == "") ==>
      r == Response(500, ErrorBody(NoAnalysis), body.image)
    ensures body.Parsed? && CheckImage(body.image).Ok? && completion.Failed? ==>
      r == Response(500, ErrorBody(Rethrown(completion.message)), body.image)
    ensures body.Parsed? && CheckImage(body.image).Ok? && completion == Failed("") ==>
      r.body == ErrorBody(AnalyzeFailure)
  {
    match body
    case Unparsable(message) => Response(500, ErrorBody(Rethrown(message)), None)
    case Parsed(image) =>
      match CheckImage(image)
      case Err(message) => Response(400, ErrorBody(message), None)
      case Ok(url) =>
        match completion
        case Completed(Some(content)) =>
          if content != "" then Response(200, AnalysisBody(content), Some(url))
          else Response(500, ErrorBody(Rethrown(NoAnalysis)), Some(url))
        case Completed(None) => Response(500, ErrorBody(Rethrown(NoAnalysis)), Some(url))
        case Failed(message) => Response(500, ErrorBody(Rethrown(message)), Some(url))
  }

  /** The `catch` clause's message: `error.message || 'Failed to analyze image'`. */
  function Rethrown(message: string): (r: string)
    ensures r != ""
    ensures message != "" ==> r == message
  {
    if message != "" then message else AnalyzeFailure
  }

  /** A checked image reaches the model as the whole data URL, header
      included, not only its base64 part. */
  lemma ForwardsWholeUrl(image: string, completion: VisionCompletion)
    requires CheckImage(Some(image)).Ok?
    ensures Post(Parsed(Some(image)), completion).forwarded == Some(image)
    ensures StartsWith(image, ImagePrefix)
  {
  }

  /** An image that passes the checks leads to status 200 or 500 and never
      to 400; an image that fails them never reaches the model. */
  lemma ChecksDecideStatus(image: Option<string>, completion: VisionCompletion)
    ensures var r := Post(Parsed(image), completion);
      (r.status == 400 <==> CheckImage(image).Err?) &&
      (r.forwarded.Some? <==> CheckImage(image).Ok?) &&
      (r.status == 200 || r.status == 400 || r.status == 500)
  {
  }

  /** A failure of the model keeps its message in the 500 response, and an
      empty answer is reported as "No analysis generated". */
  lemma ModelFailuresAre500(image: string, message: string)
    requires CheckImage(Some(image)).Ok? && message != ""
    ensures Post(Parsed(Some(image)), Failed(message)) == Response(500, ErrorBody(message), Some(image))
    ensures Post(Parsed(Some(image)), Completed(None)) == Response(500, ErrorBody(NoAnalysis), Some(image))
    ensures Post(Parsed(Some(image)), Completed(Some(""))) == Response(500, ErrorBody(NoAnalysis), Some(image))
  {
  }

  /** A data URL whose base64 part is empty is refused as invalid data. */
  lemma EmptyDataRefused(header: string)
    requires ',' !in header
    ensures var image := ImagePrefix + header + ",";
      Post(Parsed(Some(image)), Completed(None)) == Response(400, ErrorBody(InvalidData), None)
  {
    var image := ImagePrefix + header + ",";
    StartsWithLeft(ImagePrefix, header + ",");
    assert image == ImagePrefix + (header + ",");
    assert ',' !in ImagePrefix;
    var i := |ImagePrefix| + |header|;
    FirstIndexWhereUnique(image, (c: char) => c == ',', i);
    assert image[i + 1..] == [];
  }
}

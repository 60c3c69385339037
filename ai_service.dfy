/** The message service of lib/ai-service.ts: the request it sends for an
    ice breaker or an enhancement, the normalisation of the model's reply,
    and the two logs it keeps in the browser's local storage. The language
    model is represented by the reply it gives (a parameter); the local
    storage by an object holding the two lists. */
module AiService {
  import opened Wrappers
  import opened Text
  import IceBotStyles
  import IceBot
  import opened MessageStyles

  /** What `generatePrompt` reads of a `MessageStyle` record, which
      `generateAIMessage` passes on as it is: the seven flags it names;
      `cooking` and `question` are absent from the record, hence falsy, and
      the other four flags are never read. */
  function AsPromptStyle(s: MessageStyle): IceBotStyles.PromptStyle {
    IceBotStyles.PromptStyle(
      funny := s.funny, flirty := s.flirty, serious := s.serious, pervy := s.pervy,
      corny := s.corny, knockKnock := s.knockKnock, cooking := false, question := false,
      asshole := s.asshole)
  }

  /** The fixed system texts sent with a request; their wording is not part
      of this model. */
  datatype SystemText = IceBotPersonality | EnhancerBrief

  /** A chat-completion request, without its sampling parameters. */
  datatype ChatRequest = ChatRequest(model: string, system: SystemText, user: string, maxTokens: nat)

  const Model: string := "meta-llama/llama-3.1-70b-instruct"

  const MaxTokens: nat := 150

  /** What the completion endpoint gives back, as far as the code looks at it:
      a non-OK status, a failure or a body without a string at
      `choices[0].message.content`, or that string. */
  datatype Completion = NotOk | Unreadable | Content(text: string)

  const GenerateFailure: string := "Failed to generate message"

  const EnhanceFailure: string := "Failed to enhance message"

  /** The request `generateAIMessage` sends (lines 65-82), for the flags
      `generatePrompt` reads of the style object it was given. */
  function MessageRequest(profile: string, style: IceBotStyles.PromptStyle): ChatRequest {
    ChatRequest(Model, IceBotPersonality, IceBot.PromptText(profile, style), MaxTokens)
  }

  /** The profile text fills the Profile line that opens the prompt; only an
      empty profile is replaced by the placeholder. */
  lemma MessageRequestNamesProfile(profile: string, style: IceBotStyles.PromptStyle)
    ensures StartsWith(MessageRequest(profile, style).user, "Profile: " + IceBot.ProfileField(profile))
    ensures profile != "" ==> StartsWith(MessageRequest(profile, style).user, "Profile: " + profile)
    ensures profile == "" ==> StartsWith(MessageRequest(profile, style).user, "Profile: " + IceBot.Placeholder)
  {
    var guide := IceBot.StyleGuide(style, IceBotStyles.Labels(IceBotStyles.ActiveModes(style)));
    StartsWithLeft("Profile: " + IceBot.ProfileField(profile), IceBot.AfterProfile(guide, style.question));
  }

  // ---------------------------------------------------------------------
  // Normalisation of a generated message (lines 90-95)

  predicate IsQuote(c: char) {
    c == '"' || c == '\''
  }

  /** `.replace(/^["']|["']$/g, '')`. The global scan first matches a quote at
      index 0, then a quote at the last index if that index lies after the
      first match; the two removals do not depend on each other. */
  function StripQuotes(s: string): (r: string)
    ensures s == [] ==> r == []
    ensures |s| == 1 ==> (r == [] <==> IsQuote(s[0])) && (r != [] ==> r == s)
    ensures |s| >= 2 ==>
      r == s[(if IsQuote(s[0]) then 1 else 0)..|s| - (if IsQuote(s[|s| - 1]) then 1 else 0)]
  {
    var afterFirst := if s != [] && IsQuote(s[0]) then s[1..] else s;
    var lastIndex := |s| - |afterFirst|;
    if s != [] && |s| - 1 >= lastIndex && IsQuote(s[|s| - 1]) then afterFirst[..|afterFirst| - 1]
    else afterFirst
  }

  /** The alternatives of the preamble pattern, in the order they are tried. */
  const Preambles: seq<string> := [
    "Here's a message:", "Message:", "Response:", "Ice breaker:", "Here's an ice breaker:",
    "Here's what I'd say:", "I would say:", "Try this:", "How about:", "Suggestion:"]

  /** The index of the first alternative, from `from` on, that `s` starts
      with up to ASCII case. */
  function FirstPreamble(s: string, from: nat): (r: Option<nat>)
    requires from <= |Preambles|
    ensures r.Some? ==> from <= r.value < |Preambles| && StartsWithIgnoreCase(s, Preambles[r.value])
    ensures forall j :: from <= j < |Preambles| && (r.None? || j < r.value) ==>
      !StartsWithIgnoreCase(s, Preambles[j])
    decreases |Preambles| - from
  {
    if from == |Preambles| then None
    else if StartsWithIgnoreCase(s, Preambles[from]) then Some(from)
    else FirstPreamble(s, from + 1)
  }

  /** `.replace(/^(Here's a message:|…|Suggestion:)/i, '')`: the first
      alternative that matches at index 0 is removed; nothing else is. */
  function StripPreamble(s: string): (r: string)
    ensures |r| <= |s| && r == s[|s| - |r|..]
  {
    match FirstPreamble(s, 0)
    case None => s
    case Some(k) => s[|Preambles[k]|..]
  }

  /** Without a match at the start the text is kept; otherwise exactly the
      first matching alternative is cut from the front. */
  lemma StripPreambleFirstMatch(s: string)
    ensures (forall j :: 0 <= j < |Preambles| ==> !StartsWithIgnoreCase(s, Preambles[j])) ==> StripPreamble(s) == s
    ensures StripPreamble(s) != s ==>
      (exists j :: 0 <= j < |Preambles| && StartsWithIgnoreCase(s, Preambles[j]) &&
         (forall i :: 0 <= i < j ==> !StartsWithIgnoreCase(s, Preambles[i])) &&
         StripPreamble(s) == s[|Preambles[j]|..])
  {
  }

  /** A preamble is removed exactly when one matches at the start. */
  lemma StripPreambleIff(s: string)
    ensures StripPreamble(s) != s <==> exists j :: 0 <= j < |Preambles| && StartsWithIgnoreCase(s, Preambles[j])
  {
    var f := FirstPreamble(s, 0);
    if f.Some? {
      assert Preambles[f.value] != [];
      assert |StripPreamble(s)| < |s|;
    }
  }

  /** The message `generateAIMessage` returns for a completion text. */
  function Normalize(content: string): string {
    Trim(StripPreamble(StripQuotes(Trim(content))))
  }

  /** The normalised message has no whitespace at either end. */
  lemma NormalizeTrimmed(content: string)
    ensures var r := Normalize(content);
            r == [] || (!IsJsWhitespace(r[0]) && !IsJsWhitespace(r[|r| - 1]))
  {
    TrimEnds(StripPreamble(StripQuotes(Trim(content))));
  }

  /** Quote stripping keeps a piece of its input. */
  lemma StripQuotesInfix(s: string)
    ensures IsInfix(StripQuotes(s), s)
  {
    if |s| >= 2 {
      assert InfixAt(StripQuotes(s), s, if IsQuote(s[0]) then 1 else 0);
    } else {
      assert InfixAt(StripQuotes(s), s, 0);
    }
  }

  /** Preamble stripping keeps a suffix of its input. */
  lemma StripPreambleInfix(s: string)
    ensures IsInfix(StripPreamble(s), s)
  {
    var r := StripPreamble(s);
    assert InfixAt(r, s, |s| - |r|);
  }

  /** The normalised message is a piece of the completion text. */
  lemma NormalizeIsInfix(content: string)
    ensures IsInfix(Normalize(content), content)
  {
    var a := Trim(content);
    var b := StripQuotes(a);
    var c := StripPreamble(b);
    TrimInfix(content);
    StripQuotesInfix(a);
    InfixTransitive(b, a, content);
    StripPreambleInfix(b);
    InfixTransitive(c, b, content);
    TrimInfix(c);
    InfixTransitive(Normalize(content), c, content);
  }

  /** No alternative is shorter than eight characters, so a shorter text
      keeps its start. */
  lemma ShortTextKeepsStart(s: string)
    requires |s| < 8
    ensures StripPreamble(s) == s
  {
    assert forall j :: 0 <= j < |Preambles| ==> |Preambles[j]| >= 8;
  }

  /** "Message:" is removed, with nothing after it, whatever follows. */
  lemma MessagePreambleRemoved(x: string)
    ensures StripPreamble("Message:" + x) == x
  {
    var s := "Message:" + x;
    assert s[0] == 'M';
    assert s[..|Preambles[1]|] == Preambles[1];
    assert FirstPreamble(s, 0) == Some(1);
  }

  /** A quote at each end is removed, whichever quote characters they are:
      the two ends are not paired. */
  lemma QuotesAtBothEnds(a: char, x: string, b: char)
    requires IsQuote(a) && IsQuote(b)
    ensures StripQuotes([a] + x + [b]) == x
  {
    var s := [a] + x + [b];
    assert s[1..|s| - 1] == x;
  }

  /** A quote at one end only is removed on its own. */
  lemma QuoteAtOneEnd(a: char, x: string)
    requires IsQuote(a) && x != [] && !IsQuote(x[0]) && !IsQuote(x[|x| - 1])
    ensures StripQuotes([a] + x) == x
    ensures StripQuotes(x + [a]) == x
  {
    assert ([a] + x)[1..] == x;
    assert (x + [a])[..|x|] == x;
  }

  /** A single space in front of a text with no whitespace at its ends is
      all that trimming removes. */
  lemma TrimLeadingSpace(x: string)
    requires x != [] && !IsJsWhitespace(x[0]) && !IsJsWhitespace(x[|x| - 1])
    ensures Trim(" " + x) == x
  {
    var s := " " + x;
    assert SkipStart(s, 1) == 1;
    assert SkipStart(s, 0) == 1;
    assert SkipEnd(s, 1, |s|) == |s|;
    assert s[1..] == x;
  }

  /** Every alternative starts with a letter, so a text that starts with a
      quote keeps its start. */
  lemma QuoteLedKeepsStart(s: string)
    requires s != [] && IsQuote(s[0])
    ensures StripPreamble(s) == s
  {
    forall j | 0 <= j < |Preambles|
      ensures !StartsWithIgnoreCase(s, Preambles[j])
    {
      assert 'A' <= Preambles[j][0] <= 'Z';
    }
    StripPreambleFirstMatch(s);
  }

  /** Quotes are stripped before the preamble: a preamble inside quotes is
      removed together with them. */
  lemma QuotedPreambleRemoved(x: string)
    ensures Normalize("\"Message:" + x + "\"") == Trim(x)
  {
    var s := "\"Message:" + x + "\"";
    assert s == ['"'] + ("Message:" + x) + ['"'];
    TrimNoop(s);
    QuotesAtBothEnds('"', "Message:" + x, '"');
    MessagePreambleRemoved(x);
  }

  /** Quotes are stripped before the preamble: after a preamble, only the
      final quote goes and the opening one stays. */
  lemma QuoteAfterPreambleKept(y: string)
    requires y == [] || !IsJsWhitespace(y[|y| - 1])
    ensures Normalize("Message: \"" + y + "\"") == "\"" + y
  {
    var s := "Message: \"" + y + "\"";
    var inner := "Message: \"" + y;
    assert s == inner + ['"'] && s[0] == 'M';
    TrimNoop(s);
    assert StripQuotes(s) == inner;
    assert inner == "Message:" + (" " + ("\"" + y));
    MessagePreambleRemoved(" " + ("\"" + y));
    TrimLeadingSpace("\"" + y);
  }

  /** Normalising is not idempotent: a text wrapped in two layers of quotes
      loses one layer per pass. */
  lemma NormalizeNotIdempotent(y: string)
    requires y != [] && !IsJsWhitespace(y[0]) && !IsJsWhitespace(y[|y| - 1])
    requires !IsQuote(y[0]) && !IsQuote(y[|y| - 1])
    requires forall j :: 0 <= j < |Preambles| ==> !StartsWithIgnoreCase(y, Preambles[j])
    ensures Normalize("\"'" + y + "'\"") == "'" + y + "'"
    ensures Normalize(Normalize("\"'" + y + "'\"")) == y
    ensures Normalize(Normalize("\"'" + y + "'\"")) != Normalize("\"'" + y + "'\"")
  {
    var once := "'" + y + "'";
    var twice := "\"'" + y + "'\"";
    assert twice == ['"'] + once + ['"'];
    TrimNoop(twice);
    QuotesAtBothEnds('"', once, '"');
    QuoteLedKeepsStart(once);
    TrimNoop(once);
    assert once == ['\''] + y + ['\''];
    QuotesAtBothEnds('\'', y, '\'');
    StripPreambleFirstMatch(y);
    TrimNoop(y);
    assert |once| == |y| + 2;
  }

  // ---------------------------------------------------------------------
  // The enhancement request (lines 105-157)

  const EnhanceHead: string :=
    "Enhance this message while keeping its original tone and intent." + " Make subtle improvements only:" + "\n\n"

  const EnhanceTail: string := "\n\nRespond with ONLY the enhanced message."

  /** The request `enhanceMessage` sends (lines 115-145). */
  function EnhanceRequest(original: string): ChatRequest {
    ChatRequest(Model, EnhancerBrief, EnhanceHead + original + EnhanceTail, MaxTokens)
  }

  /** The original message sits between the fixed instruction and the
      closing directive of the enhancement request, unaltered. */
  lemma EnhanceRequestHoldsOriginal(original: string)
    ensures var r := EnhanceRequest(original);
            r.system == EnhancerBrief && r.model == Model &&
            StartsWith(r.user, EnhanceHead) && EndsWith(r.user, EnhanceTail) &&
            |r.user| == |EnhanceHead| + |original| + |EnhanceTail| &&
            r.user[|EnhanceHead|..|r.user| - |EnhanceTail|] == original
  {
    Enclosed(EnhanceHead, original, EnhanceTail);
  }

  /** The result of `enhanceMessage`: the completion text, only trimmed. */
  function EnhanceMessage(reply: Completion): (r: Result<string>)
    ensures r.Ok? <==> reply.Content?
    ensures r.Ok? ==> r.value == Trim(reply.text)
    ensures r.Err? ==> r.message == EnhanceFailure
  {
    match reply
    case Content(text) => Ok(Trim(text))
    case _ => Err(EnhanceFailure)
  }

  /** Enhancement keeps the quotes and the preamble that normalisation
      removes. */
  lemma EnhanceKeepsQuotes(x: string)
    requires x == [] || (!IsJsWhitespace(x[0]) && !IsJsWhitespace(x[|x| - 1]))
    ensures EnhanceMessage(Content("\"Message:" + x + "\"")) == Ok("\"Message:" + x + "\"")
    ensures Normalize("\"Message:" + x + "\"") == x
  {
    var s := "\"Message:" + x + "\"";
    assert s == ['"'] + ("Message:" + x) + ['"'];
    TrimNoop(s);
    QuotedPreambleRemoved(x);
    TrimNoop(x);
  }

  // ---------------------------------------------------------------------
  // The bounded log of used responses (lines 37-44)

  const MaxUsedResponses: nat := 100

  /** The list `saveUsedResponse` stores: the response is pushed, then the
      oldest entry is shifted out if the list has grown past the bound. */
  function PushBounded(log: seq<string>, response: string): (r: seq<string>)
    ensures r != [] && r[|r| - 1] == response
    ensures |r| == if |log| < MaxUsedResponses then |log| + 1 else |log|
    ensures r[..|r| - 1] == log[|log| - (|r| - 1)..]
  {
    var pushed := log + [response];
    if |pushed| > MaxUsedResponses then pushed[1..] else pushed
  }

  /** The last `MaxUsedResponses` entries of `all`. */
  function Newest(all: seq<string>): (r: seq<string>)
    ensures |r| <= MaxUsedResponses
  {
    if |all| <= MaxUsedResponses then all else all[|all| - MaxUsedResponses..]
  }

  /** The list after saving each of `responses` in turn. */
  function PushAll(log: seq<string>, responses: seq<string>): seq<string> {
    if responses == [] then log
    else PushBounded(PushAll(log, responses[..|responses| - 1]), responses[|responses| - 1])
  }

  lemma PushBoundedNewest(all: seq<string>, response: string)
    ensures PushBounded(Newest(all), response) == Newest(all + [response])
  {
    if |all| >= MaxUsedResponses {
      assert (Newest(all) + [response])[1..] == (all + [response])[|all + [response]| - MaxUsedResponses..];
    }
  }

  /** From a list within the bound, the log always holds exactly the newest
      `MaxUsedResponses` of everything saved, oldest first; in particular it
      never exceeds the bound. */
  lemma {:induction false} UsedResponsesWindow(log: seq<string>, responses: seq<string>)
    requires |log| <= MaxUsedResponses
    ensures PushAll(log, responses) == Newest(log + responses)
    ensures |PushAll(log, responses)| <= MaxUsedResponses
  {
    if responses == [] {
      assert log + responses == log;
    } else {
      var init := responses[..|responses| - 1];
      var last := responses[|responses| - 1];
      UsedResponsesWindow(log, init);
      PushBoundedNewest(log + init, last);
      assert log + init + [last] == log + responses;
    }
  }

  /** One entry of the feedback log. */
  datatype Feedback = Feedback(message: string, wasRegenerated: bool, timestamp: string)

  /** The two lists the service keeps in local storage. */
  class LocalStore {
    var feedback: seq<Feedback>
    var usedResponses: seq<string>

    /** Within the bound on used responses. */
    predicate Valid()
      reads this
    {
      |usedResponses| <= MaxUsedResponses
    }

    /** Nothing stored yet: both keys read as `[]`. */
    constructor ()
      ensures feedback == [] && usedResponses == []
      ensures Valid()
    {
      feedback := [];
      usedResponses := [];
    }

    /** `saveFeedback`: appends one entry with the given ISO timestamp. */
    method SaveFeedback(message: string, wasRegenerated: bool, timestamp: string)
      modifies this
      ensures feedback == old(feedback) + [Feedback(message, wasRegenerated, timestamp)]
      ensures usedResponses == old(usedResponses)
    {
      var list := feedback;
      list := list + [Feedback(message, wasRegenerated, timestamp)];
      feedback := list;
    }

    /** `saveUsedResponse`: push, then shift once if over the bound. */
    method SaveUsedResponse(response: string)
      modifies this
      ensures usedResponses == PushBounded(old(usedResponses), response)
      ensures feedback == old(feedback)
      ensures old(Valid()) ==> Valid()
    {
      var list := usedResponses;
      list := list + [response];
      if |list| > MaxUsedResponses {
        list := list[1..];
      }
      usedResponses := list;
    }

    /** `recordRegeneratedResponse`: feedback marked as regenerated. */
    method RecordRegeneratedResponse(message: string, timestamp: string)
      modifies this
      ensures feedback == old(feedback) + [Feedback(message, true, timestamp)]
      ensures usedResponses == old(usedResponses)
    {
      SaveFeedback(message, true, timestamp);
    }

    /** `generateAIMessage`: sends the request, normalises the reply and
        records the normalised message as used before returning it; any
        failure is reported with one fixed message and records nothing. The
        style object reaches `generatePrompt` unchanged, so `style` is what
        that function reads of it. */
    method GenerateAIMessage(profile: string, style: IceBotStyles.PromptStyle, reply: Completion)
      returns (request: ChatRequest, result: Result<string>)
      modifies this
      ensures request == MessageRequest(profile, style)
      ensures reply.Content? ==>
        (result == Ok(Normalize(reply.text)) &&
         usedResponses == PushBounded(old(usedResponses), Normalize(reply.text)))
      ensures !reply.Content? ==> result == Err(GenerateFailure) && usedResponses == old(usedResponses)
      ensures feedback == old(feedback)
    {
      var prompt := IceBot.GeneratePrompt(profile, style);
      request := ChatRequest(Model, IceBotPersonality, prompt, MaxTokens);
      match reply
      case Content(text) =>
        var message := Trim(text);
        message := Trim(StripPreamble(StripQuotes(message)));
        SaveUsedResponse(message);
        result := Ok(message);
      case _ =>
        result := Err(GenerateFailure);
    }
  }

  /** The four flags `generatePrompt` never reads do not change the prompt. */
  lemma UnreadFlagsIgnored(profile: string, a: MessageStyle, b: MessageStyle)
    requires a.funny == b.funny && a.serious == b.serious && a.flirty == b.flirty
    requires a.pervy == b.pervy && a.corny == b.corny && a.knockKnock == b.knockKnock
    requires a.asshole == b.asshole
    ensures MessageRequest(profile, AsPromptStyle(a)) == MessageRequest(profile, AsPromptStyle(b))
  {
    assert AsPromptStyle(a) == AsPromptStyle(b);
  }
}

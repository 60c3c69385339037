/** The profile generator page of app/generate-profile/page.tsx: the style
    flags, length and tone the user picks, the toggle of one flag, and the
    handling of the writer's answer. The model's reply is a parameter. */
module GenerateProfilePage {
  import opened Wrappers
  import opened ProfileService
  import opened Text
  import AiService

  /** The page's state. */
  datatype GeneratorState = GeneratorState(
    profileStyle: ProfileStyle, length: string, tone: string,
    generatedProfile: string, isGenerating: bool)

  /** The state the page starts in (lines 31-45). */
  const Initial := GeneratorState(NoProfileStyle, "medium", "casual", "", false)

  /** Every flag starts off, the length is "medium", the tone "casual", and
      there is no profile yet. */
  lemma InitialState()
    ensures forall k :: !Flag(Initial.profileStyle, k)
    ensures Initial.length == "medium" && Initial.tone == "casual"
    ensures Initial.generatedProfile == "" && !Initial.isGenerating
    ensures StyleNames(Initial.profileStyle) == []
  {
    forall k ensures !Flag(Initial.profileStyle, k) {
      match k
      case Funny =>
      case Mysterious =>
      case Intellectual =>
      case Adventurous =>
      case Romantic =>
      case Ambitious =>
      case Creative =>
      case Athletic =>
    }
    NoStylesLine(Initial.profileStyle);
  }

  /** `toggleStyle`: the record with the named flag negated. */
  function ToggleStyle(s: ProfileStyle, k: Trait): ProfileStyle {
    WithFlag(s, k, !Flag(s, k))
  }

  /** Toggling negates the named flag and leaves the seven others alone. */
  lemma ToggleFlipsOnlyNamed(s: ProfileStyle, k: Trait)
    ensures Flag(ToggleStyle(s, k), k) == !Flag(s, k)
    ensures forall j :: j != k ==> Flag(ToggleStyle(s, k), j) == Flag(s, j)
  {
    WithFlagReads(s, k, !Flag(s, k));
  }

  /** Toggling the same flag twice gives back the record. */
  lemma ToggleTwice(s: ProfileStyle, k: Trait)
    ensures ToggleStyle(ToggleStyle(s, k), k) == s
  {
    match k
    case Funny =>
    case Mysterious =>
    case Intellectual =>
    case Adventurous =>
    case Romantic =>
    case Ambitious =>
    case Creative =>
    case Athletic =>
  }

  const GenerateFailed := "Failed to generate profile." + " Please try again."

  /** What `generateProfile` does: the request it sends, the new state and
      the error toast, if any. */
  datatype Generation = Generation(request: ProfileRequest, next: GeneratorState, toast: Option<string>)

  /** `generateProfile`: the request built from the chosen styles, length
      and tone, then, once the writer has answered, the new state (the
      `finally` clause clears `isGenerating`) and the error toast, if any. */
  function GenerateProfile(state: GeneratorState, reply: AiService.Completion): (r: Generation)
    ensures r.request == Request(state.profileStyle, state.length, state.tone)
    ensures !r.next.isGenerating
    ensures r.next.profileStyle == state.profileStyle && r.next.length == state.length && r.next.tone == state.tone
    ensures r.toast.None? <==> reply.Content?
    ensures reply.Content? ==> r.next.generatedProfile == ProfileOutcome(reply).value
    ensures !reply.Content? ==> r.next.generatedProfile == state.generatedProfile && r.toast == Some(GenerateFailed)
  {
    var request := Request(state.profileStyle, state.length, state.tone);
    match ProfileOutcome(reply)
    case Ok(profile) => Generation(request, state.(generatedProfile := profile, isGenerating := false), None)
    case Err(_) => Generation(request, state.(isGenerating := false), Some(GenerateFailed))
  }

  /** The request carries the page's choices: the selected styles, the
      length (twice) and the tone each fill a whole line of the prompt. */
  lemma GenerateProfileSendsChoices(state: GeneratorState, reply: AiService.Completion)
    ensures var user := GenerateProfile(state, reply).request.user;
            IsInfix("\n" + StylesLine(state.profileStyle) + "\n", user) &&
            IsInfix("\n" + LengthLine(state.length) + "\n", user) &&
            IsInfix("\n" + LengthRule(state.length) + "\n", user) &&
            IsInfix("\n" + ToneLine(state.tone) + "\n", user)
  {
    StylesLineInPrompt(state.profileStyle, state.length, state.tone);
    LengthLineInPrompt(state.profileStyle, state.length, state.tone);
    LengthRuleInPrompt(state.profileStyle, state.length, state.tone);
    ToneLineInPrompt(state.profileStyle, state.length, state.tone);
  }
}

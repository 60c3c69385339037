/** The profile-description writer of lib/profile-service.ts
    (`generateProfileDescription`): the style record the generator page
    keeps, the prompt built from it, and the reading of the model's reply.
    The language model is represented by the reply it gives (a parameter);
    the persona sent as the system text is not part of this model. */
module ProfileService {
  import opened Wrappers
  import opened Text
  import AiService

  /** The eight style flags (lib/profile-service.ts lines 3-12, declared the
      same way in app/generate-profile/page.tsx lines 19-28). */
  datatype ProfileStyle = ProfileStyle(
    funny: bool, mysterious: bool, intellectual: bool, adventurous: bool,
    romantic: bool, ambitious: bool, creative: bool, athletic: bool)

  /** The keys of `ProfileStyle`, in declaration order. */
  datatype Trait =
    | Funny | Mysterious | Intellectual | Adventurous
    | Romantic | Ambitious | Creative | Athletic

  /** The keys as `Object.entries` lists them. */
  const AllTraits: seq<Trait> :=
    [Funny, Mysterious, Intellectual, Adventurous, Romantic, Ambitious, Creative, Athletic]

  /** The property name of a key. */
  function Name(k: Trait): string {
    match k
    case Funny => "funny"
    case Mysterious => "mysterious"
    case Intellectual => "intellectual"
    case Adventurous => "adventurous"
    case Romantic => "romantic"
    case Ambitious => "ambitious"
    case Creative => "creative"
    case Athletic => "athletic"
  }

  /** The flag a key names. */
  function Flag(s: ProfileStyle, k: Trait): bool {
    match k
    case Funny => s.funny
    case Mysterious => s.mysterious
    case Intellectual => s.intellectual
    case Adventurous => s.adventurous
    case Romantic => s.romantic
    case Ambitious => s.ambitious
    case Creative => s.creative
    case Athletic => s.athletic
  }

  /** The record with the flag named by `k` set to `v`. */
  function WithFlag(s: ProfileStyle, k: Trait, v: bool): ProfileStyle {
    ProfileStyle(
      funny := if k == Funny then v else s.funny,
      mysterious := if k == Mysterious then v else s.mysterious,
      intellectual := if k == Intellectual then v else s.intellectual,
      adventurous := if k == Adventurous then v else s.adventurous,
      romantic := if k == Romantic then v else s.romantic,
      ambitious := if k == Ambitious then v else s.ambitious,
      creative := if k == Creative then v else s.creative,
      athletic := if k == Athletic then v else s.athletic)
  }

  /** Setting one flag reads back as set and leaves every other flag as it was. */
  lemma WithFlagReads(s: ProfileStyle, k: Trait, v: bool)
    ensures forall j :: Flag(WithFlag(s, k, v), j) == if j == k then v else Flag(s, j)
  {
    forall j ensures Flag(WithFlag(s, k, v), j) == if j == k then v else Flag(s, j) {
      match j
      case Funny =>
      case Mysterious =>
      case Intellectual =>
      case Adventurous =>
      case Romantic =>
      case Ambitious =>
      case Creative =>
      case Athletic =>
    }
  }

  /** Two records with the same flags are the same record. */
  lemma FlagsDetermine(a: ProfileStyle, b: ProfileStyle)
    requires forall k :: Flag(a, k) == Flag(b, k)
    ensures a == b
  {
    var fieldsA := [a.funny, a.mysterious, a.intellectual, a.adventurous,
                    a.romantic, a.ambitious, a.creative, a.athletic];
    var flagsB := [Flag(b, Funny), Flag(b, Mysterious), Flag(b, Intellectual), Flag(b, Adventurous),
                   Flag(b, Romantic), Flag(b, Ambitious), Flag(b, Creative), Flag(b, Athletic)];
    assert fieldsA == [Flag(a, Funny), Flag(a, Mysterious), Flag(a, Intellectual), Flag(a, Adventurous),
                       Flag(a, Romantic), Flag(a, Ambitious), Flag(a, Creative), Flag(a, Athletic)];
    assert fieldsA == flagsB;
  }

  /** The keys of `keys` whose flag is set, in the order given. */
  function Enabled(s: ProfileStyle, keys: seq<Trait>): (r: seq<Trait>)
    ensures |r| <= |keys|
  {
    if keys == [] then []
    else (if Flag(s, keys[0]) then [keys[0]] else []) + Enabled(s, keys[1..])
  }

  /** A key is kept exactly when it is in the list and its flag is set. */
  lemma {:induction false} EnabledMembership(s: ProfileStyle, keys: seq<Trait>, k: Trait)
    ensures k in Enabled(s, keys) <==> k in keys && Flag(s, k)
  {
    if keys != [] {
      EnabledMembership(s, keys[1..], k);
      assert keys == [keys[0]] + keys[1..];
    }
  }

  /** Lines 48-50: the keys whose flag is set, in the order `Object.entries`
      gives them. */
  function EnabledTraits(s: ProfileStyle): seq<Trait> {
    Enabled(s, AllTraits)
  }

  /** The names of the given keys, in the same order. */
  function Names(ks: seq<Trait>): (r: seq<string>)
    ensures |r| == |ks|
  {
    if ks == [] then [] else [Name(ks[0])] + Names(ks[1..])
  }

  /** The names listed on the "Styles:" line. */
  function StyleNames(s: ProfileStyle): seq<string> {
    Names(EnabledTraits(s))
  }

  /** The enabled keys written out one declaration at a time: each key
      appears once if its flag is set, and the keys keep the record's
      order. */
  function InKeyOrder(s: ProfileStyle): seq<Trait> {
    (if s.funny then [Funny] else []) +
    ((if s.mysterious then [Mysterious] else []) +
    ((if s.intellectual then [Intellectual] else []) +
    ((if s.adventurous then [Adventurous] else []) +
    ((if s.romantic then [Romantic] else []) +
    ((if s.ambitious then [Ambitious] else []) +
    ((if s.creative then [Creative] else []) +
    (if s.athletic then [Athletic] else [])))))))
  }

  /** The listed keys are exactly the enabled ones, in record key order. */
  lemma EnabledTraitsInKeyOrder(s: ProfileStyle)
    ensures EnabledTraits(s) == InKeyOrder(s)
  {
    var t8: seq<Trait> := [];
    var t7 := [Athletic] + t8;
    var t6 := [Creative] + t7;
    var t5 := [Ambitious] + t6;
    var t4 := [Romantic] + t5;
    var t3 := [Adventurous] + t4;
    var t2 := [Intellectual] + t3;
    var t1 := [Mysterious] + t2;
    var t0 := [Funny] + t1;
    assert t0 == AllTraits;
    EnabledCons(s, Athletic, t8);
    EnabledCons(s, Creative, t7);
    EnabledCons(s, Ambitious, t6);
    EnabledCons(s, Romantic, t5);
    EnabledCons(s, Adventurous, t4);
    EnabledCons(s, Intellectual, t3);
    EnabledCons(s, Mysterious, t2);
    EnabledCons(s, Funny, t1);
  }

  lemma EnabledCons(s: ProfileStyle, k: Trait, ks: seq<Trait>)
    ensures Enabled(s, [k] + ks) == (if Flag(s, k) then [k] else []) + Enabled(s, ks)
  {
    assert ([k] + ks)[1..] == ks;
  }

  /** Distinct keys have distinct names. */
  lemma NameInjective(j: Trait, k: Trait)
    requires Name(j) == Name(k)
    ensures j == k
  {
    match j
    case Funny => assert Name(k)[0] == 'f';
    case Mysterious => assert Name(k)[0] == 'm';
    case Intellectual => assert Name(k)[0] == 'i';
    case Adventurous => assert Name(k)[0] == 'a' && Name(k)[1] == 'd';
    case Romantic => assert Name(k)[0] == 'r';
    case Ambitious => assert Name(k)[0] == 'a' && Name(k)[1] == 'm';
    case Creative => assert Name(k)[0] == 'c';
    case Athletic => assert Name(k)[0] == 'a' && Name(k)[1] == 't';
  }

  /** A name is in the list of names of some keys exactly when its key is. */
  lemma {:induction false} NamesMembership(ks: seq<Trait>, k: Trait)
    ensures Name(k) in Names(ks) <==> k in ks
  {
    if ks != [] {
      NamesMembership(ks[1..], k);
      assert ks == [ks[0]] + ks[1..];
      if Name(ks[0]) == Name(k) {
        NameInjective(ks[0], k);
      }
    }
  }

  /** A key's name is on the "Styles:" line exactly when its flag is set. */
  lemma NameListedIffEnabled(s: ProfileStyle, k: Trait)
    ensures Name(k) in StyleNames(s) <==> Flag(s, k)
  {
    NamesMembership(EnabledTraits(s), k);
    EnabledMembership(s, AllTraits, k);
    match k
    case Funny =>
    case Mysterious =>
    case Intellectual =>
    case Adventurous =>
    case Romantic =>
    case Ambitious =>
    case Creative =>
    case Athletic =>
  }

  /** The record with no style set, the generator page's starting value. */
  const NoProfileStyle := ProfileStyle(
    funny := false, mysterious := false, intellectual := false, adventurous := false,
    romantic := false, ambitious := false, creative := false, athletic := false)

  // ---------------------------------------------------------------------
  // The prompt (lines 52-72)

  /** The "Styles:" line: the enabled names joined by ", ". */
  function StylesLine(s: ProfileStyle): string {
    "Styles: " + Join(StyleNames(s), ", ")
  }

  /** The "Length:" line. */
  function LengthLine(length: string): string {
    "Length: " + length
  }

  /** The "Tone:" line. */
  function ToneLine(tone: string): string {
    "Tone: " + tone
  }

  /** The guideline that repeats the length in parentheses. */
  function LengthRule(length: string): string {
    "- Keep length appropriate (" + length + ")"
  }

  const Ending := "Respond with ONLY the profile text."

  // The fixed lines of the template.
  const Opening := "Create a dating profile description with these characteristics:"
  const GuidelinesTitle := "Guidelines:"
  const FirstPerson := "- Write in first person"
  const MatchTone := "- Match the selected tone and style"
  const Natural := "- Make it natural and engaging"
  const Specific := "- Include specific details"
  const NoCliches := "- Avoid clichés and generic statements"
  const ShowPersonality := "- Show personality through writing"
  const Positive := "- Keep it positive and upbeat"
  const Memorable := "- Make it memorable and unique"
  const Classy := "- Stay classy and tasteful"
  const Combine := "Create a profile that combines all selected styles naturally" +
                   " while maintaining the specified tone and length."

  /** The lines of the template, the three values filled in. */
  function PromptLines(s: ProfileStyle, length: string, tone: string): seq<string> {
    [Opening, "", StylesLine(s), LengthLine(length), ToneLine(tone), "",
     GuidelinesTitle, FirstPerson, MatchTone, LengthRule(length), Natural, Specific,
     NoCliches, ShowPersonality, Positive, Memorable, Classy, "", Combine, "", Ending]
  }

  /** The user prompt of `generateProfileDescription`. */
  function Prompt(s: ProfileStyle, length: string, tone: string): string {
    Join(PromptLines(s, length, tone), "\n")
  }

  /** The "Styles:" line is a whole line of the prompt. */
  lemma StylesLineInPrompt(s: ProfileStyle, length: string, tone: string)
    ensures IsInfix("\n" + StylesLine(s) + "\n", Prompt(s, length, tone))
  {
    JoinInterior(PromptLines(s, length, tone), "\n", 2);
  }

  /** The length fills the "Length:" line, a whole line of the prompt. */
  lemma LengthLineInPrompt(s: ProfileStyle, length: string, tone: string)
    ensures IsInfix("\n" + LengthLine(length) + "\n", Prompt(s, length, tone))
  {
    JoinInterior(PromptLines(s, length, tone), "\n", 3);
  }

  /** The length is quoted again in the length guideline, also a whole
      line of the prompt. */
  lemma LengthRuleInPrompt(s: ProfileStyle, length: string, tone: string)
    ensures IsInfix("\n" + LengthRule(length) + "\n", Prompt(s, length, tone))
  {
    JoinInterior(PromptLines(s, length, tone), "\n", 9);
  }

  /** The tone fills the "Tone:" line, a whole line of the prompt. */
  lemma ToneLineInPrompt(s: ProfileStyle, length: string, tone: string)
    ensures IsInfix("\n" + ToneLine(tone) + "\n", Prompt(s, length, tone))
  {
    JoinInterior(PromptLines(s, length, tone), "\n", 4);
  }

  /** The prompt ends with the instruction to answer with the profile text
      only, on a line of its own. */
  lemma PromptEnding(s: ProfileStyle, length: string, tone: string)
    ensures EndsWith(Prompt(s, length, tone), "\n" + Ending)
  {
    JoinLast(PromptLines(s, length, tone), "\n");
  }

  /** With no style set, and only then, the list is empty and the line
      reads "Styles: " with nothing after it. */
  lemma NoStylesLine(s: ProfileStyle)
    ensures StyleNames(s) == [] <==> forall k :: !Flag(s, k)
    ensures StyleNames(s) == [] ==> StylesLine(s) == "Styles: "
  {
    if StyleNames(s) == [] {
      forall k ensures !Flag(s, k) {
        EnabledMembership(s, AllTraits, k);
      }
    } else {
      var k := EnabledTraits(s)[0];
      EnabledMembership(s, AllTraits, k);
    }
  }

  // ---------------------------------------------------------------------
  // The request and the reply (lines 74-111)

  /** The request, without its sampling parameters; the system text is the
      fixed persona. */
  datatype ProfileRequest = ProfileRequest(model: string, user: string, maxTokens: nat)

  /** The request `generateProfileDescription` sends. */
  function Request(s: ProfileStyle, length: string, tone: string): ProfileRequest {
    ProfileRequest(AiService.Model, Prompt(s, length, tone), 500)
  }

  const ProfileFailure := "Failed to generate profile"

  /** The outcome for a reply: its content trimmed, or, for a non-OK status
      or a body without content, the one error the `catch` clause raises. */
  function ProfileOutcome(reply: AiService.Completion): (r: Result<string>)
    ensures r.Ok? <==> reply.Content?
    ensures r.Ok? ==> r.value == Trim(reply.text)
    ensures r.Err? ==> r.message == ProfileFailure
  {
    match reply
    case Content(text) => Ok(Trim(text))
    case _ => Err(ProfileFailure)
  }

  /** The profile handed back has no surrounding whitespace, so trimming it
      again changes nothing. */
  lemma ProfileOutcomeTrimmed(reply: AiService.Completion)
    requires reply.Content?
    ensures var p := ProfileOutcome(reply).value;
      Trim(p) == p && (p == [] || (!IsJsWhitespace(p[0]) && !IsJsWhitespace(p[|p| - 1])))
  {
    TrimIdempotent(reply.text);
    TrimEnds(reply.text);
  }
}

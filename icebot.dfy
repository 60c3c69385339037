/** The ice-breaker prompt composer of lib/icebot.ts (`generatePrompt`): it
    maps a profile text and a record of style flags to the user prompt sent
    to the language model. The persona (`personality`) is a fixed system
    text and is represented only by a tag elsewhere. */
module IceBot {
  import opened Text
  import opened IceBotStyles

  /** The guidance block a mode contributes when its flag is set: a title
      line naming the mode, then one bullet per rule. */
  function Block(m: Mode): (r: string)
    ensures r != [] && r[0] == '\n'
  {
    "\n" + Label(m) + " Mode Activated:\n- " + Join(Guidance(m), "\n- ")
  }

  /** The rules listed in a mode's guidance block. */
  function Guidance(m: Mode): seq<string> {
    match m
    case Asshole => ["Channel toxic CEO/celebrity energy", "Be condescending and dismissive", "Use backhanded compliments", "Show extreme narcissism", "Reference your \"success\"", "Stay sophisticated but mean", "Never use explicit language", "Keep it reportable-adjacent"]
    case Funny => ["Channel comedy legends", "Use unexpected punchlines", "Keep it genuinely hilarious", "No cheap humor"]
    case Flirty => ["Channel Casanova energy", "Master of innuendo", "Keep it spicy but classy", "Bold but tasteful"]
    case Pervy => ["Channel Bob Saget style", "Innocent setup, naughty punchline", "Perfect the art of suggestion", "Stay just this side of appropriate"]
    case Corny => ["Classic dad jokes", "Groan-worthy puns", "Cheesy wordplay", "Keep it light and fun"]
    case KnockKnock => ["Classic format with a twist", "Profile-relevant punchline", "Clever wordplay", "Keep it sophisticated"]
    case Cooking => ["Culinary wordplay", "Food-related puns", "Kitchen metaphors", "Keep it tasteful"]
    case Serious => ["Professional and direct", "Show depth and insight", "Focus on substance", "Keep it sophisticated"]
    case Question => ["End with engaging question", "Make it conversation worthy", "Focus on their interests", "Avoid basic questions"]
  }

  /** The lines of the fixed text that closes the style guide. */
  const WritingStyleLines: seq<string> := [
    "Writing Style:", "- Use proper English", "- Perfect grammar and punctuation",
    "- Maintain professional tone", "- One strategic emoji if it fits", "- Vary sentence structure",
    "- Sound sophisticated", "- Be articulate and clear", "", "Remember:",
    "- Keep the tone consistent with selected styles", "- Mix selected styles naturally",
    "- Perfect the art of suggestion", "- Stay just this side of explicit",
    "- Make them laugh AND blush", "- Focus on the profile content"]

  const WritingStyle: string := Join(WritingStyleLines, "\n")

  const InstructionHead: string :=
    "Create a single ice breaker that matches the selected styles." + " Make it sophisticated and natural." +
    "\n\nRules:\n"

  /** The first rule; it is followed by `QuestionRule` when `question` is set. */
  const MaxSentences: string := "- Max 2 sentences"

  const QuestionRule: string := " (plus question)"

  /** The remaining rules. */
  const OtherRules: seq<string> := [
    "- Use proper English", "- Maintain selected tone", "- One strategic emoji",
    "- Keep it bold and natural", "- Show personality", "- Perfect grammar",
    "- Stay within style guide", "- Never sound robotic", "- Always bring the heat",
    "- Keep it fresh", "- Never reference location", "- Focus on profile content"]

  /** The remaining rules, up to the blank line before the closing directive. */
  const RulesBody: string := "\n" + Join(OtherRules, "\n") + "\n\n"

  const Closing: string := "Respond with ONLY the message itself"

  const Instruction: string := InstructionHead + MaxSentences

  const RulesTail: string := RulesBody + Closing

  const Placeholder: string := "No profile provided"

  const StylesHeader: string := "\nSelected Styles: "

  const QuestionSuffix: string := " with Question"

  // ---------------------------------------------------------------------
  // The templates (lines 169-277)

  /** The text standing in a block's place: the block when the flag is set,
      nothing otherwise. */
  function Slot(ms: PromptStyle, m: Mode): string {
    if IsOn(ms, m) then Block(m) else ""
  }

  function Slots(ms: PromptStyle, modes: seq<Mode>): seq<string> {
    seq(|modes|, i requires 0 <= i < |modes| => Slot(ms, modes[i]))
  }

  /** The "Selected Styles" line, with its leading newline. */
  function StyleLine(names: seq<string>, question: bool): string {
    StylesHeader + Join(names, " + ") + (if question then QuestionSuffix else "")
  }

  /** The `styleGuide` template, given the pushed names. */
  function StyleGuide(ms: PromptStyle, names: seq<string>): string {
    StyleLine(names, ms.question) + "\n\n" + Join(Slots(ms, BlockOrder), "\n\n") + "\n\n" + WritingStyle
  }

  /** `profile || 'No profile provided'`: only the empty string is falsy, so
      any other profile, whitespace-only included, is kept verbatim. */
  function ProfileField(profile: string): (r: string)
    ensures r != ""
    ensures profile != "" ==> r == profile
  {
    if profile == "" then Placeholder else profile
  }

  /** Everything the returned template holds after the profile. */
  function AfterProfile(styleGuide: string, question: bool): string {
    "\n\n" + styleGuide + "\n\n" + Instruction + (if question then QuestionRule else "") + RulesTail
  }

  /** The returned template, given the style guide. */
  function Compose(profile: string, styleGuide: string, question: bool): string {
    "Profile: " + ProfileField(profile) + AfterProfile(styleGuide, question)
  }

  /** The prompt `generatePrompt` returns (reference definition). */
  function PromptText(profile: string, ms: PromptStyle): string {
    Compose(profile, StyleGuide(ms, Labels(ActiveModes(ms))), ms.question)
  }

  /** `ICEBOT_PERSONA.generatePrompt`: pushes the names, then fills the templates. */
  method GeneratePrompt(profile: string, ms: PromptStyle) returns (prompt: string)
    ensures prompt == PromptText(profile, ms)
  {
    var styles := CollectStyles(ms);
    var styleGuide := StyleGuide(ms, styles);
    prompt := Compose(profile, styleGuide, ms.question);
  }

  // ---------------------------------------------------------------------
  // Properties of the composed prompt

  /** The prompt always starts with "Profile: " and ends with the closing
      directive, whatever the style guide and the profile. */
  lemma ComposeFrame(profile: string, styleGuide: string, question: bool)
    ensures StartsWith(Compose(profile, styleGuide, question), "Profile: ")
    ensures EndsWith(Compose(profile, styleGuide, question), Closing)
  {
    var head := "Profile: " + ProfileField(profile);
    StartsWithLeft("Profile: ", ProfileField(profile));
    StartsWithAppend(head, "Profile: ", AfterProfile(styleGuide, question));
    EndsWithRight(RulesBody, Closing);
    var before := "\n\n" + styleGuide + "\n\n" + Instruction + (if question then QuestionRule else "");
    EndsWithPrepend(before, RulesTail, Closing);
    EndsWithPrepend(head, AfterProfile(styleGuide, question), Closing);
  }

  /** The profile fills the Profile line and nothing else: after it, the
      prompts for any two profiles are the same text. */
  lemma ProfileOnlyFillsItsLine(p1: string, p2: string, styleGuide: string, question: bool)
    ensures var h1 := "Profile: " + ProfileField(p1);
            var h2 := "Profile: " + ProfileField(p2);
            StartsWith(Compose(p1, styleGuide, question), h1) &&
            StartsWith(Compose(p2, styleGuide, question), h2) &&
            Compose(p1, styleGuide, question)[|h1|..] == Compose(p2, styleGuide, question)[|h2|..]
  {
    var rest := AfterProfile(styleGuide, question);
    StartsWithLeft("Profile: " + ProfileField(p1), rest);
    StartsWithLeft("Profile: " + ProfileField(p2), rest);
    assert Compose(p1, styleGuide, question)[|"Profile: " + ProfileField(p1)|..] == rest;
    assert Compose(p2, styleGuide, question)[|"Profile: " + ProfileField(p2)|..] == rest;
  }

  /** " (plus question)" follows "- Max 2 sentences" exactly when `question`
      is set; otherwise the rule ends the line. */
  lemma QuestionRuleIff(profile: string, styleGuide: string, question: bool)
    ensures EndsWith(Compose(profile, styleGuide, question), MaxSentences + QuestionRule + RulesTail) <==> question
    ensures !question ==> EndsWith(Compose(profile, styleGuide, question), MaxSentences + RulesTail)
  {
    var head := "Profile: " + ProfileField(profile);
    var lead := "\n\n" + styleGuide + "\n\n";
    EndsWithRight(InstructionHead, MaxSentences);
    EndsWithPrepend(lead, Instruction, MaxSentences);
    var q := if question then QuestionRule else "";
    EndsWithGrow(lead + Instruction, MaxSentences, q);
    EndsWithGrow(lead + Instruction + q, MaxSentences + q, RulesTail);
    EndsWithPrepend(head, AfterProfile(styleGuide, question), MaxSentences + q + RulesTail);
    if !question {
      assert MaxSentences + q == MaxSentences;
      var p := Compose(profile, styleGuide, question);
      if EndsWith(p, MaxSentences + QuestionRule + RulesTail) {
        EndsWithCharBefore(p, MaxSentences + QuestionRule, RulesTail);
        EndsWithCharBefore(p, MaxSentences, RulesTail);
      }
    }
  }

  /** The style guide follows the Profile line and a blank line. */
  lemma StyleGuideInPrompt(profile: string, styleGuide: string, question: bool)
    ensures StartsWith(Compose(profile, styleGuide, question),
                       "Profile: " + ProfileField(profile) + "\n\n" + styleGuide)
  {
    var h := "Profile: " + ProfileField(profile);
    var lead := "\n\n" + styleGuide;
    var q := if question then QuestionRule else "";
    StartsWithLeft(lead, "\n\n");
    StartsWithAppend(lead + "\n\n", lead, Instruction);
    StartsWithAppend(lead + "\n\n" + Instruction, lead, q);
    StartsWithAppend(lead + "\n\n" + Instruction + q, lead, RulesTail);
    StartsWithPrepend(h, AfterProfile(styleGuide, question), lead);
    AppendAssoc(h, "\n\n", styleGuide);
  }

  /** The "Selected Styles" line and the blocks follow the Profile line
      and a blank line, whatever they hold. */
  lemma GuidePrefix(profile: string, styleLine: string, slots: string, question: bool)
    ensures StartsWith(Compose(profile, styleLine + "\n\n" + slots + "\n\n" + WritingStyle, question),
                       "Profile: " + ProfileField(profile) + "\n\n" + styleLine + "\n\n" + slots)
  {
    var head := "Profile: " + ProfileField(profile) + "\n\n";
    var guide := styleLine + "\n\n" + slots + "\n\n" + WritingStyle;
    StyleGuideInPrompt(profile, guide, question);
    StartsWithLeft(styleLine + "\n\n" + slots, "\n\n");
    StartsWithAppend(styleLine + "\n\n" + slots + "\n\n", styleLine + "\n\n" + slots, WritingStyle);
    StartsWithPrepend(head, guide, styleLine + "\n\n" + slots);
    StartsWithTransitive(Compose(profile, guide, question), head + guide, head + (styleLine + "\n\n" + slots));
    AppendAssoc(head, styleLine + "\n\n", slots);
    AppendAssoc(head, styleLine, "\n\n");
  }

  /** A text that starts with `line`, then " with Question" exactly when
      `question` is set, then a blank line: the suffix follows `line`
      exactly when `question` is set. */
  lemma SuffixAfterLine(p: string, line: string, question: bool)
    requires StartsWith(p, line + (if question then QuestionSuffix else "") + "\n\n")
    ensures StartsWith(p, line)
    ensures StartsWith(p, line + QuestionSuffix) <==> question
    ensures !question ==> StartsWith(p, line + "\n\n")
  {
    if question {
      StartsWithLeft(line + QuestionSuffix, "\n\n");
      StartsWithTransitive(p, line + QuestionSuffix + "\n\n", line + QuestionSuffix);
      StartsWithLeft(line, QuestionSuffix);
      StartsWithTransitive(p, line + QuestionSuffix, line);
    } else {
      assert line + "" == line;
      StartsWithLeft(line, "\n\n");
      StartsWithTransitive(p, line + "\n\n", line);
      assert p[|line|] == (line + "\n\n")[|line|] == '\n';
      assert (line + QuestionSuffix)[|line|] == ' ';
      if StartsWith(p, line + QuestionSuffix) {
        assert false;
      }
    }
  }

  /** In the prompt, " with Question" follows the selected names exactly
      when `question` is set; otherwise a blank line follows them. */
  lemma QuestionSuffixIff(profile: string, ms: PromptStyle)
    ensures var line := "Profile: " + ProfileField(profile) + "\n\n" + StylesHeader +
                        Join(Labels(ActiveModes(ms)), " + ");
            var p := PromptText(profile, ms);
            StartsWith(p, line) &&
            (StartsWith(p, line + QuestionSuffix) <==> ms.question) &&
            (!ms.question ==> StartsWith(p, line + "\n\n"))
  {
    var head := "Profile: " + ProfileField(profile) + "\n\n";
    var joined := Join(Labels(ActiveModes(ms)), " + ");
    var styleLine := StyleLine(Labels(ActiveModes(ms)), ms.question);
    var slots := Join(Slots(ms, BlockOrder), "\n\n");
    var p := PromptText(profile, ms);
    GuidePrefix(profile, styleLine, slots, ms.question);
    StartsWithLeft(head + styleLine + "\n\n", slots);
    StartsWithTransitive(p, head + styleLine + "\n\n" + slots, head + styleLine + "\n\n");
    AppendAssoc(head, StylesHeader + joined, if ms.question then QuestionSuffix else "");
    AppendAssoc(head, StylesHeader, joined);
    SuffixAfterLine(p, head + StylesHeader + joined, ms.question);
  }

  /** The blocks follow the "Selected Styles" line and a blank line, joined
      in `BlockOrder`. */
  lemma BlocksInPrompt(profile: string, ms: PromptStyle)
    ensures var before := "Profile: " + ProfileField(profile) + "\n\n" +
                          StyleLine(Labels(ActiveModes(ms)), ms.question) + "\n\n";
            StartsWith(PromptText(profile, ms), before + Join(Slots(ms, BlockOrder), "\n\n"))
  {
    GuidePrefix(profile, StyleLine(Labels(ActiveModes(ms)), ms.question), Join(Slots(ms, BlockOrder), "\n\n"), ms.question);
  }

  /** Each place of `BlockOrder` holds its block exactly when its flag is
      set, and nothing otherwise; no flag excludes another. */
  lemma BlockFollowsFlag(ms: PromptStyle, i: nat)
    requires i < |BlockOrder|
    ensures Slots(ms, BlockOrder)[i] == Block(BlockOrder[i]) <==> IsOn(ms, BlockOrder[i])
    ensures Slots(ms, BlockOrder)[i] == "" <==> !IsOn(ms, BlockOrder[i])
  {
  }

  /** The block of every mode that is on appears in the prompt. */
  lemma BlockInPromptWhenOn(profile: string, ms: PromptStyle, m: Mode)
    ensures IsOn(ms, m) ==> IsInfix(Block(m), PromptText(profile, ms))
  {
    if IsOn(ms, m) {
      var before := "Profile: " + ProfileField(profile) + "\n\n" +
                    StyleLine(Labels(ActiveModes(ms)), ms.question) + "\n\n";
      BlocksInPrompt(profile, ms);
      var i := BlockPlace(m);
      JoinedPartInPrefix(PromptText(profile, ms), before, Slots(ms, BlockOrder), "\n\n", i);
    }
  }

  /** The place of a mode in `BlockOrder`. */
  lemma BlockPlace(m: Mode) returns (i: nat)
    ensures i < |BlockOrder| && BlockOrder[i] == m
  {
    i := match m
      case Asshole => 0
      case Funny => 1
      case Flirty => 2
      case Pervy => 3
      case Corny => 4
      case KnockKnock => 5
      case Cooking => 6
      case Serious => 7
      case Question => 8;
  }

  /** Every mode has exactly one place in `BlockOrder`. */
  lemma BlockOrderCoversModes(m: Mode)
    ensures multiset(BlockOrder)[m] == 1
  {
  }
}

/** The style record that app/page.tsx builds and lib/ai-service.ts receives
    (declared identically in both files): eleven flags, read and written by
    key the way the page does with `prev[style]` and `Object.keys(prev)`. */
module MessageStyles {

  /** The style record (lib/ai-service.ts lines 7-19, app/page.tsx lines 14-26). */
  datatype MessageStyle = MessageStyle(
    funny: bool, serious: bool, flirty: bool, foodie: bool, travel: bool,
    pervy: bool, corny: bool, knockKnock: bool, popCulture: bool,
    humorousScenarios: bool, asshole: bool)

  /** The keys of `MessageStyle`, in declaration order. */
  datatype StyleKey =
    | Funny | Serious | Flirty | Foodie | Travel | Pervy | Corny
    | KnockKnock | PopCulture | HumorousScenarios | Asshole

  /** The flag a key names. */
  function Flag(s: MessageStyle, k: StyleKey): bool {
    match k
    case Funny => s.funny
    case Serious => s.serious
    case Flirty => s.flirty
    case Foodie => s.foodie
    case Travel => s.travel
    case Pervy => s.pervy
    case Corny => s.corny
    case KnockKnock => s.knockKnock
    case PopCulture => s.popCulture
    case HumorousScenarios => s.humorousScenarios
    case Asshole => s.asshole
  }

  /** The record with the flag named by `k` set to `v`. */
  function WithFlag(s: MessageStyle, k: StyleKey, v: bool): MessageStyle {
    MessageStyle(
      funny := if k == Funny then v else s.funny,
      serious := if k == Serious then v else s.serious,
      flirty := if k == Flirty then v else s.flirty,
      foodie := if k == Foodie then v else s.foodie,
      travel := if k == Travel then v else s.travel,
      pervy := if k == Pervy then v else s.pervy,
      corny := if k == Corny then v else s.corny,
      knockKnock := if k == KnockKnock then v else s.knockKnock,
      popCulture := if k == PopCulture then v else s.popCulture,
      humorousScenarios := if k == HumorousScenarios then v else s.humorousScenarios,
      asshole := if k == Asshole then v else s.asshole)
  }

  /** Setting one flag reads back as set and leaves every other flag as it was. */
  lemma WithFlagReads(s: MessageStyle, k: StyleKey, v: bool)
    ensures forall j :: Flag(WithFlag(s, k, v), j) == if j == k then v else Flag(s, j)
  {
    forall j ensures Flag(WithFlag(s, k, v), j) == if j == k then v else Flag(s, j) {
      match j
      case Funny =>
      case Serious =>
      case Flirty =>
      case Foodie =>
      case Travel =>
      case Pervy =>
      case Corny =>
      case KnockKnock =>
      case PopCulture =>
      case HumorousScenarios =>
      case Asshole =>
    }
  }

  /** The initial state: no style selected. */
  const NoStyle: MessageStyle := MessageStyle(
    funny := false, serious := false, flirty := false, foodie := false,
    travel := false, pervy := false, corny := false, knockKnock := false,
    popCulture := false, humorousScenarios := false, asshole := false)

  /** Two records with the same flags are the same record. */
  lemma FlagsDetermine(a: MessageStyle, b: MessageStyle)
    requires forall k :: Flag(a, k) == Flag(b, k)
    ensures a == b
  {
    // The fields of `a`, and the flags of both records, in key order.
    var fieldsA := [a.funny, a.serious, a.flirty, a.foodie, a.travel, a.pervy,
                    a.corny, a.knockKnock, a.popCulture, a.humorousScenarios, a.asshole];
    var flagsB := [Flag(b, Funny), Flag(b, Serious), Flag(b, Flirty), Flag(b, Foodie),
                   Flag(b, Travel), Flag(b, Pervy), Flag(b, Corny), Flag(b, KnockKnock),
                   Flag(b, PopCulture), Flag(b, HumorousScenarios), Flag(b, Asshole)];
    assert fieldsA == [Flag(a, Funny), Flag(a, Serious), Flag(a, Flirty), Flag(a, Foodie),
                       Flag(a, Travel), Flag(a, Pervy), Flag(a, Corny), Flag(a, KnockKnock),
                       Flag(a, PopCulture), Flag(a, HumorousScenarios), Flag(a, Asshole)];
  }
}

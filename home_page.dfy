/** The ice-breaker page of app/page.tsx: the style toggles, whose
    "asshole" style excludes every other style, and the vote on a
    generated message, and the request for a new one. React state is
    modelled as a value that each handler replaces; the model's reply, the
    save request and its outcome are parameters. */
module HomePage {
  import opened Wrappers
  import opened MessageStyles
  import AiService

  /** `toggleStyle`. Toggling "asshole" turns every other style off and
      flips "asshole" (in both directions); while "asshole" is on, every
      other toggle is ignored; otherwise exactly the toggled flag flips. */
  function ToggleStyle(s: MessageStyle, k: StyleKey): MessageStyle {
    if k == Asshole then WithFlag(NoStyle, Asshole, !s.asshole)
    else if s.asshole then s
    else WithFlag(s, k, !Flag(s, k))
  }

  /** The three cases of `toggleStyle`, flag by flag. */
  lemma ToggleStyleSpec(s: MessageStyle, k: StyleKey)
    ensures var r := ToggleStyle(s, k);
      (k == Asshole ==>
        Flag(r, Asshole) == !Flag(s, Asshole) && forall j :: j != Asshole ==> !Flag(r, j)) &&
      (k != Asshole && Flag(s, Asshole) ==> r == s) &&
      (k != Asshole && !Flag(s, Asshole) ==>
        Flag(r, k) == !Flag(s, k) && forall j :: j != k ==> Flag(r, j) == Flag(s, j))
  {
    if k == Asshole {
      WithFlagReads(NoStyle, Asshole, !s.asshole);
      assert forall j :: !Flag(NoStyle, j);
    } else if !s.asshole {
      WithFlagReads(s, k, !Flag(s, k));
    }
  }

  /** "asshole" excludes every other style. */
  predicate Exclusive(s: MessageStyle) {
    Flag(s, Asshole) ==> forall k :: k != Asshole ==> !Flag(s, k)
  }

  /** Every toggle keeps the exclusivity of "asshole". */
  lemma ToggleKeepsExclusive(s: MessageStyle, k: StyleKey)
    requires Exclusive(s)
    ensures Exclusive(ToggleStyle(s, k))
  {
    ToggleStyleSpec(s, k);
  }

  /** The state after a sequence of toggles. */
  function ToggleAll(s: MessageStyle, keys: seq<StyleKey>): MessageStyle
    decreases |keys|
  {
    if keys == [] then s else ToggleAll(ToggleStyle(s, keys[0]), keys[1..])
  }

  /** Starting from the initial state, no sequence of toggles ever selects
      "asshole" together with another style. */
  lemma {:induction false} ReachableExclusive(keys: seq<StyleKey>)
    ensures Exclusive(ToggleAll(NoStyle, keys))
  {
    ToggleAllKeepsExclusive(NoStyle, keys);
  }

  /** Exclusivity survives any sequence of toggles. */
  lemma {:induction false} ToggleAllKeepsExclusive(s: MessageStyle, keys: seq<StyleKey>)
    requires Exclusive(s)
    ensures Exclusive(ToggleAll(s, keys))
    decreases |keys|
  {
    if keys != [] {
      ToggleKeepsExclusive(s, keys[0]);
      ToggleAllKeepsExclusive(ToggleStyle(s, keys[0]), keys[1..]);
    }
  }

  /** Toggling the same ordinary style twice, while "asshole" is off,
      restores the state. */
  lemma ToggleTwice(s: MessageStyle, k: StyleKey)
    requires k != Asshole && !Flag(s, Asshole)
    ensures ToggleStyle(ToggleStyle(s, k), k) == s
  {
    ToggleStyleSpec(s, k);
    ToggleStyleSpec(ToggleStyle(s, k), k);
    FlagsDetermine(ToggleStyle(ToggleStyle(s, k), k), s);
  }

  /** Toggling "asshole" twice turns it back to what it was and leaves no
      other style selected. */
  lemma ToggleAssholeTwice(s: MessageStyle)
    ensures ToggleStyle(ToggleStyle(s, Asshole), Asshole) == WithFlag(NoStyle, Asshole, Flag(s, Asshole))
  {
    var t := ToggleStyle(ToggleStyle(s, Asshole), Asshole);
    var u := WithFlag(NoStyle, Asshole, Flag(s, Asshole));
    ToggleStyleSpec(s, Asshole);
    ToggleStyleSpec(ToggleStyle(s, Asshole), Asshole);
    WithFlagReads(NoStyle, Asshole, Flag(s, Asshole));
    assert forall j :: Flag(t, j) == Flag(u, j);
    FlagsDetermine(t, u);
  }

  // ---------------------------------------------------------------------
  // Asking for a message (`generateMessage`)
  // ---------------------------------------------------------------------

  const GenerateFailedToast := "Failed to generate message." + " Please try again."

  /** `generateMessage`: asks the service for an ice breaker for the
      profile and the selected styles (the request sent is returned); a
      message replaces the one shown, a failure keeps it and shows the
      error toast. */
  method GenerateMessage(store: AiService.LocalStore, profile: string, style: MessageStyle,
                         generated: string, reply: AiService.Completion)
    returns (request: AiService.ChatRequest, shown: string, failure: Option<string>)
    modifies store
    ensures request == AiService.MessageRequest(profile, AiService.AsPromptStyle(style))
    ensures reply.Content? ==> shown == AiService.Normalize(reply.text) && failure == None
    ensures !reply.Content? ==> shown == generated && failure == Some(GenerateFailedToast)
    ensures reply.Content? ==> store.usedResponses == AiService.PushBounded(old(store.usedResponses), shown)
    ensures !reply.Content? ==> store.usedResponses == old(store.usedResponses)
    ensures store.feedback == old(store.feedback)
  {
    var result;
    request, result := store.GenerateAIMessage(profile, AiService.AsPromptStyle(style), reply);
    match result
    case Ok(message) =>
      shown, failure := message, None;
    case Err(_) =>
      shown, failure := generated, Some(GenerateFailedToast);
  }

  // ---------------------------------------------------------------------
  // Voting on the generated message (`handleVote`)
  // ---------------------------------------------------------------------

  /** A toast the page shows. */
  datatype Toast = Success(text: string) | Info(text: string) | Failure(text: string)

  const SavedToast := "Message saved!"
  const ThanksToast := "Thanks for the feedback! This helps FlirtNinja learn."
  const SaveFailedToast := "Failed to save message"

  /** What a vote does: the generated message afterwards, the text handed
      to `addSavedMessage` (if any) and the toast shown (if any). */
  datatype VoteEffect = VoteEffect(generated: string, saveRequest: Option<string>, toast: Option<Toast>)

  /** `handleVote`. `saveFails` says whether `addSavedMessage` throws when
      it is called. An empty message makes the vote a no-op; an upvote asks
      to save the message; the message is cleared unless the save throws. */
  function HandleVote(generated: string, isUpvote: bool, saveFails: bool): (r: VoteEffect)
    ensures generated == "" ==> r == VoteEffect("", None, None)
    ensures generated != "" ==> r.saveRequest == (if isUpvote then Some(generated) else None)
    ensures generated != "" ==> (r.generated == "" <==> !(isUpvote && saveFails))
    ensures r.generated == "" || r.generated == generated
    ensures r.toast == Some(Failure(SaveFailedToast)) <==> generated != "" && isUpvote && saveFails
  {
    if generated == "" then VoteEffect(generated, None, None)
    else if isUpvote then
      if saveFails then VoteEffect(generated, Some(generated), Some(Failure(SaveFailedToast)))
      else VoteEffect("", Some(generated), Some(Success(SavedToast)))
    else VoteEffect("", None, Some(Info(ThanksToast)))
  }
}

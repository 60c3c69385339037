/** The conversation panel of components/conversation-dialog.tsx: adding a
    message, answering the match's latest message, enhancing one of the
    user's messages and regenerating an answer. Every handler builds a new
    conversation from the current one; the update it hands to the store and
    to its parent is the `Some` result here, and `None` stands for "no
    update". Message ids and ISO timestamps come from the clock and are
    parameters. */
module ConversationDialog {
  import opened Wrappers
  import opened Text
  import opened Seqs
  import opened Types
  import opened MessageStyles
  import AiService

  // ---------------------------------------------------------------------
  // Looking messages up
  // ---------------------------------------------------------------------

  /** The text of the match's most recent message:
      `[...messages].reverse().find(msg => msg.isMatch)?.text`. */
  function LastMatchText(ms: seq<Message>): Option<string> {
    match LastIndexWhere(ms, (m: Message) => m.isMatch)
    case Some(i) => Some(ms[i].text)
    case None => None
  }

  /** `LastMatchText` finds `t` exactly when some message of the match has
      text `t` and no later message is the match's. */
  lemma LastMatchTextIff(ms: seq<Message>, t: string)
    ensures LastMatchText(ms) == Some(t) <==>
      exists i :: 0 <= i < |ms| && ms[i].isMatch && ms[i].text == t &&
        forall j :: i < j < |ms| ==> !ms[j].isMatch
  {
    var p := (m: Message) => m.isMatch;
    if i :| 0 <= i < |ms| && ms[i].isMatch && ms[i].text == t &&
            (forall j :: i < j < |ms| ==> !ms[j].isMatch) {
      LastIndexWhereUnique(ms, p, i);
    }
  }

  /** The id of the user's most recent message (`latestMessageId`): the only
      message that shows the regenerate and enhance buttons. */
  function LatestMessageId(ms: seq<Message>): (r: Option<string>)
    ensures r.None? <==> forall j :: 0 <= j < |ms| ==> ms[j].isMatch
  {
    match LastIndexWhere(ms, (m: Message) => !m.isMatch)
    case Some(i) => Some(ms[i].id)
    case None => None
  }

  /** `latestMessageId` is the id of a message of the user's after which
      only the match has written. */
  lemma LatestMessageIdSpec(ms: seq<Message>)
    ensures LatestMessageId(ms).Some? ==>
      exists i :: 0 <= i < |ms| && !ms[i].isMatch && ms[i].id == LatestMessageId(ms).value &&
        forall j :: i < j < |ms| ==> ms[j].isMatch
  {
    var p := (m: Message) => !m.isMatch;
    if LatestMessageId(ms).Some? {
      var i := LastIndexWhere(ms, p).value;
      assert !ms[i].isMatch && ms[i].id == LatestMessageId(ms).value;
    }
  }

  /** The messages `regenerateResponse` searches for the match's message
      to answer: those before the one with `messageId`. When no message has
      that id, `findIndex` gives -1 and `slice(0, -1)` keeps all but the
      last message. */
  function MessagesBefore(ms: seq<Message>, messageId: string): (r: seq<Message>)
    ensures |r| <= |ms| && r == ms[..|r|]
  {
    match FirstIndexWhere(ms, (m: Message) => m.id == messageId)
    case Some(i) => ms[..i]
    case None => if ms == [] then [] else ms[..|ms| - 1]
  }

  /** The text `regenerateResponse` answers. */
  function PreviousMatchText(ms: seq<Message>, messageId: string): Option<string> {
    LastMatchText(MessagesBefore(ms, messageId))
  }

  /** When the message to regenerate is at index `k` (the first with its
      id), the answer is built from the nearest message of the match
      strictly before `k`. */
  lemma PreviousMatchTextAt(ms: seq<Message>, messageId: string, k: nat, t: string)
    requires k < |ms| && ms[k].id == messageId
    requires forall j :: 0 <= j < k ==> ms[j].id != messageId
    ensures PreviousMatchText(ms, messageId) == Some(t) <==>
      exists i :: 0 <= i < k && ms[i].isMatch && ms[i].text == t &&
        forall j :: i < j < k ==> !ms[j].isMatch
  {
    FirstIndexWhereUnique(ms, (m: Message) => m.id == messageId, k);
    var before := ms[..k];
    assert MessagesBefore(ms, messageId) == before;
    LastMatchTextIff(before, t);
    if i :| 0 <= i < k && ms[i].isMatch && ms[i].text == t &&
            (forall j :: i < j < k ==> !ms[j].isMatch) {
      assert before[i] == ms[i];
      forall j | i < j < |before| ensures !before[j].isMatch {
        assert before[j] == ms[j];
      }
    }
  }

  /** A reference to a message that is not in the list searches every
      message but the last. */
  lemma PreviousMatchTextUnknownId(ms: seq<Message>, messageId: string)
    requires ms != []
    requires forall j :: 0 <= j < |ms| ==> ms[j].id != messageId
    ensures PreviousMatchText(ms, messageId) == LastMatchText(ms[..|ms| - 1])
  {
  }

  /** The text a handler gets from an optional lookup is usable when it is
      present and non-empty: `if (!text)` rejects `undefined` and `""`. */
  predicate Usable(text: Option<string>) {
    text.Some? && text.value != ""
  }

  // ---------------------------------------------------------------------
  // Rewriting messages in place
  // ---------------------------------------------------------------------

  /** The messages with `text` put into every message whose id is
      `messageId` (the `map` of `regenerateResponse`). */
  function ReplaceText(ms: seq<Message>, messageId: string, text: string): (r: seq<Message>)
    ensures |r| == |ms|
    ensures forall i :: 0 <= i < |r| ==>
      r[i].id == ms[i].id && r[i].isMatch == ms[i].isMatch &&
      r[i].text == (if ms[i].id == messageId then text else ms[i].text)
    ensures forall i :: 0 <= i < |r| && ms[i].id != messageId ==> r[i] == ms[i]
    ensures forall i :: 0 <= i < |r| && ms[i].id == messageId ==> r[i] == ms[i].(text := text)
  {
    seq(|ms|, i requires 0 <= i < |ms| =>
      if ms[i].id == messageId then ms[i].(text := text) else ms[i])
  }

  /** The messages with `text` put into every message whose id is
      `messageId`, now marked as enhanced (the `map` of
      `enhanceManualMessage`). */
  function MarkEnhanced(ms: seq<Message>, messageId: string, text: string): (r: seq<Message>)
    ensures |r| == |ms|
    ensures forall i :: 0 <= i < |r| ==>
      r[i].id == ms[i].id && r[i].isMatch == ms[i].isMatch &&
      r[i].isAIGenerated == ms[i].isAIGenerated && r[i].timestamp == ms[i].timestamp
    ensures forall i :: 0 <= i < |r| && ms[i].id != messageId ==> r[i] == ms[i]
    ensures forall i :: 0 <= i < |r| && ms[i].id == messageId ==>
      r[i].text == text && r[i].isAIEnhanced == Some(true)
  {
    seq(|ms|, i requires 0 <= i < |ms| =>
      if ms[i].id == messageId then ms[i].(text := text, isAIEnhanced := Some(true)) else ms[i])
  }

  /** Rewriting texts moves no message between the user and the match, so
      the latest message of the user's keeps its id. */
  lemma ReplaceTextKeepsLatestId(ms: seq<Message>, messageId: string, text: string)
    ensures LatestMessageId(ReplaceText(ms, messageId, text)) == LatestMessageId(ms)
    ensures LatestMessageId(MarkEnhanced(ms, messageId, text)) == LatestMessageId(ms)
  {
    var p := (m: Message) => !m.isMatch;
    var r := ReplaceText(ms, messageId, text);
    var e := MarkEnhanced(ms, messageId, text);
    match LastIndexWhere(ms, p)
    case Some(i) =>
      LastIndexWhereUnique(r, p, i);
      LastIndexWhereUnique(e, p, i);
    case None =>
  }

  /** Writing the same text twice is writing it once. */
  lemma ReplaceTextIdempotent(ms: seq<Message>, messageId: string, text: string)
    ensures ReplaceText(ReplaceText(ms, messageId, text), messageId, text) == ReplaceText(ms, messageId, text)
  {
  }

  /** A message id nobody has changes nothing. */
  lemma ReplaceTextUnknownId(ms: seq<Message>, messageId: string, text: string)
    requires forall j :: 0 <= j < |ms| ==> ms[j].id != messageId
    ensures ReplaceText(ms, messageId, text) == ms
    ensures MarkEnhanced(ms, messageId, text) == ms
  {
  }

  // ---------------------------------------------------------------------
  // The handlers
  // ---------------------------------------------------------------------

  /** `addMessage`: a text that trims to nothing adds nothing; otherwise the
      trimmed text becomes a new message at the end, written by the match or
      by the user, and the conversation's `lastMessage`. `newId` is
      `Date.now().toString()`, `now` the ISO time. */
  function AddMessage(conv: Conversation, text: string, isMatch: bool, isAIGenerated: bool,
                      newId: string, now: string): (r: Option<Conversation>)
    ensures r.None? <==> Trim(text) == ""
    ensures r.Some? ==>
      var ms := r.value.messages;
      |ms| == |conv.messages| + 1 && ms[..|conv.messages|] == conv.messages &&
      ms[|ms| - 1].id == newId && ms[|ms| - 1].timestamp == now &&
      ms[|ms| - 1].text == Trim(text) && ms[|ms| - 1].isMatch == isMatch &&
      ms[|ms| - 1].isAIGenerated == Some(isAIGenerated) && ms[|ms| - 1].isAIEnhanced == None &&
      r.value.lastMessage == Trim(text) && r.value.timestamp == now &&
      r.value.id == conv.id && r.value.name == conv.name && r.value.userId == conv.userId &&
      r.value.order == conv.order && r.value.success == conv.success
  {
    var trimmed := Trim(text);
    if trimmed == "" then None
    else
      var message := Message(newId, trimmed, isMatch, Some(isAIGenerated), None, now);
      assert (conv.messages + [message])[..|conv.messages|] == conv.messages;
      Some(conv.(messages := conv.messages + [message], lastMessage := trimmed, timestamp := now))
  }

  /** After the match's message is added, it is the one the next answer is
      generated from. */
  lemma AddedMatchMessageIsAnswered(conv: Conversation, text: string, isAIGenerated: bool,
                                    newId: string, now: string)
    requires Trim(text) != ""
    ensures var r := AddMessage(conv, text, true, isAIGenerated, newId, now);
      r.Some? && LastMatchText(r.value.messages) == Some(Trim(text))
  {
    var ms := AddMessage(conv, text, true, isAIGenerated, newId, now).value.messages;
    LastIndexWhereUnique(ms, (m: Message) => m.isMatch, |ms| - 1);
  }

  /** After the user's message is added, it is the latest one of the
      user's, and the one offered for regeneration and enhancement. */
  lemma AddedOwnMessageIsLatest(conv: Conversation, text: string, isAIGenerated: bool,
                                newId: string, now: string)
    requires Trim(text) != ""
    ensures var r := AddMessage(conv, text, false, isAIGenerated, newId, now);
      r.Some? && LatestMessageId(r.value.messages) == Some(newId)
  {
    var ms := AddMessage(conv, text, false, isAIGenerated, newId, now).value.messages;
    LastIndexWhereUnique(ms, (m: Message) => !m.isMatch, |ms| - 1);
  }

  /** Adding the user's message leaves the message the next answer is
      generated from as it was. */
  lemma AddedOwnMessageKeepsSource(conv: Conversation, text: string, isAIGenerated: bool,
                                   newId: string, now: string)
    requires Trim(text) != ""
    ensures var r := AddMessage(conv, text, false, isAIGenerated, newId, now);
      r.Some? && LastMatchText(r.value.messages) == LastMatchText(conv.messages)
  {
    var ms := AddMessage(conv, text, false, isAIGenerated, newId, now).value.messages;
    assert ms == conv.messages + [ms[|ms| - 1]];
    LastIndexWhereAppend(conv.messages, [ms[|ms| - 1]], (m: Message) => m.isMatch);
  }

  /** The style the dialog always asks for: funny and flirty. */
  const DialogStyle: MessageStyle := WithFlag(WithFlag(NoStyle, Funny, true), Flirty, true)

  /** The conversation `enhanceManualMessage` stores: the message with
      `messageId` carries the enhanced text and is marked as enhanced, and
      the enhanced text becomes `lastMessage`, whether or not that message
      is the last one. */
  function Enhanced(conv: Conversation, messageId: string, enhanced: string, now: string): (r: Conversation)
    ensures r.lastMessage == enhanced && r.timestamp == now
    ensures r.messages == MarkEnhanced(conv.messages, messageId, enhanced)
    ensures r.id == conv.id && r.name == conv.name && r.userId == conv.userId
    ensures r.order == conv.order && r.success == conv.success
  {
    conv.(messages := MarkEnhanced(conv.messages, messageId, enhanced), lastMessage := enhanced, timestamp := now)
  }

  /** `enhanceManualMessage`: the enhancement request for `originalText`
      (the first component), and the update its reply yields: the updated
      conversation or, on failure, none. */
  function EnhanceManualMessage(conv: Conversation, messageId: string, originalText: string,
                                reply: AiService.Completion, now: string)
    : (r: (AiService.ChatRequest, Option<Conversation>))
    ensures r.0 == AiService.EnhanceRequest(originalText)
    ensures r.1.Some? <==> reply.Content?
    ensures r.1.Some? ==> r.1.value == Enhanced(conv, messageId, Trim(reply.text), now)
  {
    var request := AiService.EnhanceRequest(originalText);
    match AiService.EnhanceMessage(reply)
    case Ok(enhanced) => (request, Some(Enhanced(conv, messageId, enhanced, now)))
    case Err(_) => (request, None)
  }

  /** The "enhance" button of a message passes that message's own text: the
      request holds it, unaltered, between the fixed instruction and the
      closing directive, and a successful reply marks that message. */
  lemma EnhanceButtonSendsOwnText(conv: Conversation, k: nat, reply: AiService.Completion, now: string)
    requires k < |conv.messages|
    ensures var m := conv.messages[k];
            var r := EnhanceManualMessage(conv, m.id, m.text, reply, now);
            var user := r.0.user;
            |user| == |AiService.EnhanceHead| + |m.text| + |AiService.EnhanceTail| &&
            user[|AiService.EnhanceHead|..|user| - |AiService.EnhanceTail|] == m.text &&
            (r.1.Some? ==> r.1.value.messages[k].isAIEnhanced == Some(true))
  {
    var m := conv.messages[k];
    AiService.EnhanceRequestHoldsOriginal(m.text);
  }

  /** The conversation `regenerateResponse` stores: the message with
      `messageId` carries the new answer, which becomes `lastMessage`. */
  function Regenerated(conv: Conversation, messageId: string, response: string, now: string): (r: Conversation)
    ensures r.lastMessage == response && r.timestamp == now
    ensures r.messages == ReplaceText(conv.messages, messageId, response)
    ensures r.id == conv.id && r.name == conv.name && r.userId == conv.userId
    ensures r.order == conv.order && r.success == conv.success
  {
    conv.(messages := ReplaceText(conv.messages, messageId, response), lastMessage := response, timestamp := now)
  }

  /** The text of the first message with `messageId`, if any
      (`messages.find(m => m.id === messageId)?.text`). */
  function TextOf(ms: seq<Message>, messageId: string): Option<string> {
    match FirstIndexWhere(ms, (m: Message) => m.id == messageId)
    case Some(i) => Some(ms[i].text)
    case None => None
  }

  /** The feedback `regenerateResponse` records before asking again: the
      replaced text, marked as regenerated, when it is non-empty. */
  function RegenerationFeedback(ms: seq<Message>, messageId: string, now: string): seq<AiService.Feedback> {
    var replaced := TextOf(ms, messageId);
    if Usable(replaced) then [AiService.Feedback(replaced.value, true, now)] else []
  }

  /** `generateNewMessage`: answers the match's latest message with the
      dialog's style and adds the answer as an AI-generated message of the
      user's. Without a usable message of the match, nothing is asked and
      nothing changes. */
  method GenerateNewMessage(store: AiService.LocalStore, conv: Conversation, reply: AiService.Completion,
                            newId: string, now: string)
    returns (request: Option<AiService.ChatRequest>, r: Option<Conversation>)
    modifies store
    ensures !Usable(LastMatchText(conv.messages)) ==> request == None
    ensures Usable(LastMatchText(conv.messages)) ==>
      request == Some(AiService.MessageRequest(LastMatchText(conv.messages).value, AiService.AsPromptStyle(DialogStyle)))
    ensures !Usable(LastMatchText(conv.messages)) ==> r == None && unchanged(store)
    ensures Usable(LastMatchText(conv.messages)) ==>
      store.feedback == old(store.feedback) &&
      (reply.Content? ==>
         r == AddMessage(conv, AiService.Normalize(reply.text), false, true, newId, now) &&
         store.usedResponses == AiService.PushBounded(old(store.usedResponses), AiService.Normalize(reply.text))) &&
      (!reply.Content? ==> r == None && store.usedResponses == old(store.usedResponses))
  {
    var source := LastMatchText(conv.messages);
    if !Usable(source) {
      return None, None;
    }
    var sent, response := store.GenerateAIMessage(source.value, AiService.AsPromptStyle(DialogStyle), reply);
    request := Some(sent);
    match response
    case Ok(text) =>
      r := AddMessage(conv, text, false, true, newId, now);
    case Err(_) =>
      r := None;
  }

  /** `regenerateResponse`: answers again the match's message before the one
      with `messageId`, records the replaced text as regenerated feedback
      when it is non-empty, and writes the new answer into that message.
      Without a usable message of the match before it, nothing is asked and
      nothing changes. */
  method RegenerateResponse(store: AiService.LocalStore, conv: Conversation, messageId: string,
                            reply: AiService.Completion, now: string)
    returns (request: Option<AiService.ChatRequest>, r: Option<Conversation>)
    modifies store
    ensures !Usable(PreviousMatchText(conv.messages, messageId)) ==> request == None
    ensures Usable(PreviousMatchText(conv.messages, messageId)) ==>
      request == Some(AiService.MessageRequest(PreviousMatchText(conv.messages, messageId).value,
                                               AiService.AsPromptStyle(DialogStyle)))
    ensures !Usable(PreviousMatchText(conv.messages, messageId)) ==> r == None && unchanged(store)
    ensures Usable(PreviousMatchText(conv.messages, messageId)) ==>
      store.feedback == old(store.feedback) + RegenerationFeedback(conv.messages, messageId, now)
    ensures Usable(PreviousMatchText(conv.messages, messageId)) && reply.Content? ==>
      r == Some(Regenerated(conv, messageId, AiService.Normalize(reply.text), now)) &&
      store.usedResponses == AiService.PushBounded(old(store.usedResponses), AiService.Normalize(reply.text))
    ensures Usable(PreviousMatchText(conv.messages, messageId)) && !reply.Content? ==>
      r == None && store.usedResponses == old(store.usedResponses)
  {
    var source := PreviousMatchText(conv.messages, messageId);
    if !Usable(source) {
      return None, None;
    }
    var oldText := TextOf(conv.messages, messageId);
    if Usable(oldText) {
      store.RecordRegeneratedResponse(oldText.value, now);
    }
    assert store.feedback == old(store.feedback) + RegenerationFeedback(conv.messages, messageId, now);
    assert store.usedResponses == old(store.usedResponses);
    var sent, response := store.GenerateAIMessage(source.value, AiService.AsPromptStyle(DialogStyle), reply);
    request := Some(sent);
    match response
    case Ok(text) =>
      r := Some(Regenerated(conv, messageId, text, now));
    case Err(_) =>
      r := None;
  }

  /** The message the dialog answers fills the Profile line of the prompt
      it sends, verbatim. */
  lemma AnswerPromptNamesMessage(source: Option<string>)
    requires Usable(source)
    ensures StartsWith(AiService.MessageRequest(source.value, AiService.AsPromptStyle(DialogStyle)).user,
                       "Profile: " + source.value)
  {
    AiService.MessageRequestNamesProfile(source.value, AiService.AsPromptStyle(DialogStyle));
  }
}

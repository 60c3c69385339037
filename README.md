# FlirtNinja core, modelled in Dafny

FlirtNinja is a dating assistant web app. It writes ice-breaker messages and
dating-profile texts with a language model. It can analyse a profile photo
with a vision model. It also keeps a list of conversations, with their
messages, in a store.

This project models the logic of that app that does not depend on the
network or the store. The parts modelled are:
- the prompt composer of the ice-breaker persona (`lib/icebot.ts`);
- the normalisation of generated messages and the two local-storage logs
  (`lib/ai-service.ts`);
- the profile-description prompt (`lib/profile-service.ts`);
- the image checks of the vision client (`lib/vision-service.ts`);
- the image checks of the server route (`app/api/analyze/route.ts`);
- the state changes made by the page handlers: the home page, the
  conversation dialog, the conversation list, the saved messages, the photo
  page, the profile generator, the settings page and the sign-in gate.

One Dafny module stands for each source file:

| module | file | form |
|---|---|---|
| `IceBotStyles`, `IceBot` | lib/icebot.ts | the `styles` array is built by a method with one guarded push per flag; the template is a function |
| `MessageStyles` | lib/ai-service.ts, app/page.tsx | the eleven-flag style record |
| `AiService` | lib/ai-service.ts | normalisation as functions; the local storage is a class `LocalStore` whose methods push, shift and append |
| `HomePage` | app/page.tsx | functions on the page state, and a method that calls the service |
| `ConversationDialog` | components/conversation-dialog.tsx | functions on conversations, and methods that call the service |
| `ConversationsPage` | app/conversations/page.tsx | `onDragEnd` as a method over a copied list; the rest as functions |
| `SavedPage` | app/saved/page.tsx | functions |
| `VisionService` | lib/vision-service.ts | functions |
| `AnalyzeRoute` | app/api/analyze/route.ts | functions |
| `ScanPage` | app/scan/page.tsx | functions for the checks and the vote; methods for the handlers that call the services |
| `ProfileService` | lib/profile-service.ts | functions |
| `GenerateProfilePage` | app/generate-profile/page.tsx | functions |
| `ProfilePage` | app/profile/page.tsx | functions |
| `AuthProvider` | components/auth-provider.tsx | functions |

The records of `lib/types.ts` are datatypes in `Types`. `Text` models the
JavaScript string operations the code uses:
- `trim`, with the full set of characters JavaScript treats as white space;
- `startsWith` and `join`;
- ASCII case folding, which is all a case-insensitive match of the ASCII
  preambles needs.

`Seqs` holds a generic filter and index searches. `Wrappers` holds
`Option` and `Result`.

Each language-model call is a parameter: the reply the model gives, or the
way the call fails. A handler that awaits a call is modelled as a function or
a method of that reply. Clock readings and generated ids are parameters too.

A few things the code does are easy to get wrong:
- **Normalisation is not idempotent.** `generateAIMessage` strips at most
  one quote at each end before it strips a preamble. A text wrapped in two
  layers of quotes loses one layer per pass (`AiService.NormalizeNotIdempotent`).
- **The profile placeholder.** `generatePrompt` writes "No profile provided"
  only for the empty string (`profile || …`). A profile made only of white
  space is kept as it is.
- **Quotes and preambles.** Quotes at the two ends are not paired, and
  `"Message: hi"` loses both its quotes and its preamble. By contrast,
  `Message: "hi"` keeps its opening quote.
- **An unknown message id.** `regenerateResponse` with an id that is in no
  message gets −1 from `findIndex`. `slice(0, -1)` then searches every
  message but the last.
- **Empty texts.** `if (!text)` also rejects the empty string. So an empty
  message of the match blocks generation, and no earlier message is used
  instead.
- **The photo page's vote** saves the message shown even when it is empty.
- **The file reader.** Its `loadend` event also fires after a read error.
  The selected image then becomes whatever the reader holds.
- **The photo page's style.** It passes `question: true` and `cooking: false`
  straight to `generatePrompt`. The home page and the dialog pass an
  eleven-flag record that has neither field, so both read as false.

## Model

| member | source | states |
|---|---|---|
| Text.Trim | lib/ai-service.ts:90 | `String.prototype.trim`: the longest inner piece with no JavaScript white space at either end; stated by `Text.TrimEnds`, `Text.TrimIdempotent` and `Text.TrimInfix` |
| IceBotStyles.Rank | lib/icebot.ts:159-167 | every mode but Question has a position in the push order, and that position names it |
| IceBotStyles.PushWhen | lib/icebot.ts:160-167 | one guarded push: the name is appended when the flag is set, and the list is unchanged otherwise |
| IceBotStyles.CollectStyles | lib/icebot.ts:159-167 | the `styles` array built by the eight pushes holds the names of the selected modes, in push order |
| IceBotStyles.SelectedSnoc | lib/icebot.ts:159-167 | selecting from an order extended by one mode is one more guarded push |
| IceBotStyles.ActiveModesPushes | lib/icebot.ts:160-167 | the selected modes are the concatenation of the eight guarded pushes, asshole first |
| IceBotStyles.LabelsPushed | lib/icebot.ts:160-167 | naming the modes commutes with a guarded push |
| IceBotStyles.LabelsOfActiveModes | lib/icebot.ts:160-167 | the names of the selected modes are exactly what the eight pushes add, in that order |
| IceBotStyles.SelectedMembership | lib/icebot.ts:160-167 | a mode is selected from an order iff it is in that order and its flag is set |
| IceBotStyles.ActiveModesExact | lib/icebot.ts:160-167 | a mode is on the Selected Styles line iff it is not Question and its flag is set |
| IceBotStyles.SelectedOrdered | lib/icebot.ts:160-167 | selection keeps the order of the list it selects from |
| IceBotStyles.ActiveModesOrdered | lib/icebot.ts:160-167 | the selected modes appear in push order: asshole, funny, flirty, serious, pervy, corny, knockKnock, cooking |
| IceBotStyles.RankInjective | lib/icebot.ts:160-167 | distinct modes have distinct push positions |
| IceBotStyles.HeadLeast | lib/icebot.ts:160-167 | the head of an ordered list has the least push position of its members |
| IceBotStyles.TailMembers | lib/icebot.ts:160-167 | the tail of an ordered list holds all its members but the head |
| IceBotStyles.RankOrderedUnique | lib/icebot.ts:160-167 | two lists in push order with the same members are equal |
| IceBotStyles.SameMembersBothEmpty | lib/icebot.ts:160-167 | lists with the same members are empty together |
| IceBotStyles.ActiveModesCharacterised | lib/icebot.ts:159-170 | the Selected Styles list is the only list in push order holding exactly the set flags |
| IceBotStyles.LabelInjective | lib/icebot.ts:160-167 | distinct modes push distinct names |
| IceBotStyles.SelectedStylesExact | lib/icebot.ts:159-170 | a style name is listed iff its flag is set, so asshole and funny are both listed when both are set |
| IceBot.Block | lib/icebot.ts:172-237 | a mode's guidance block opens on a new line with its "Mode Activated" title, then one bullet per rule; it is never empty |
| IceBot.StyleGuide | lib/icebot.ts:169-253 | the `styleGuide` template: the Selected Styles line, the nine block places in block order joined by blank lines, then the writing-style rules; its layout is stated by `IceBot.BlocksInPrompt` and `IceBot.QuestionSuffixIff` |
| IceBot.Compose | lib/icebot.ts:256-277 | the returned template around a style guide; its frame is stated by `IceBot.ComposeFrame`, `IceBot.ProfileOnlyFillsItsLine` and `IceBot.QuestionRuleIff` |
| IceBot.PromptText | lib/icebot.ts:158-277 | the prompt `generatePrompt` returns, the reference for `IceBot.GeneratePrompt`; its content is stated by the lemmas below |
| IceBot.ProfileField | lib/icebot.ts:256 | the Profile line is never empty, and a non-empty profile (even white space) is kept verbatim |
| IceBot.GeneratePrompt | lib/icebot.ts:158-277 | the method that pushes the names and fills the templates returns the reference prompt |
| IceBot.ComposeFrame | lib/icebot.ts:256-277 | every prompt starts with "Profile: " and ends with "Respond with ONLY the message itself" |
| IceBot.ProfileOnlyFillsItsLine | lib/icebot.ts:256 | two profiles give prompts that agree after the Profile line |
| IceBot.QuestionRuleIff | lib/icebot.ts:263 | the "Max 2 sentences" rule carries " (plus question)" iff `question` is set |
| IceBot.QuestionSuffixIff | lib/icebot.ts:169-170 | in the prompt, right after the Profile line, a blank line, the "Selected Styles: " header and the joined names, " with Question" follows iff `question` is set; otherwise a blank line follows |
| IceBot.BlocksInPrompt | lib/icebot.ts:169-237 | in the prompt, the Selected Styles line and a blank line are followed by the nine block places, in block order, joined by blank lines |
| IceBot.BlockFollowsFlag | lib/icebot.ts:172-237 | each block place holds its mode's block iff that mode's flag is set, and nothing otherwise; no flag excludes another |
| IceBot.BlockInPromptWhenOn | lib/icebot.ts:172-237 | the block of every mode whose flag is set appears in the prompt |
| IceBot.BlockOrderCoversModes | lib/icebot.ts:172-237 | each of the nine modes has exactly one place in the block order, where Serious follows Cooking |
| AiService.AsPromptStyle | lib/ai-service.ts:74 | the style object `generateAIMessage` hands to `generatePrompt`, as far as `generatePrompt` reads it: the seven named flags, with `cooking` and `question` absent and so false; see `AiService.UnreadFlagsIgnored` |
| AiService.MessageRequest | lib/ai-service.ts:65-82 | the request `generateAIMessage` sends: the model, the persona and the prompt `generatePrompt` returns for the profile and style; see `AiService.MessageRequestNamesProfile` |
| AiService.MessageRequestNamesProfile | lib/icebot.ts:256 | the request's prompt opens with the Profile line holding the profile itself, or the placeholder for an empty profile |
| AiService.Normalize | lib/ai-service.ts:90-95 | trim, strip one quote at each end, strip the first preamble, trim again; its properties are stated by `AiService.NormalizeTrimmed`, `AiService.NormalizeIsInfix` and `AiService.NormalizeNotIdempotent` |
| AiService.EnhanceRequest | lib/ai-service.ts:115-145 | the request `enhanceMessage` sends; its content is stated by `AiService.EnhanceRequestHoldsOriginal` |
| MessageStyles.WithFlagReads | lib/ai-service.ts:7-19 | setting one flag reads back as set and leaves the other ten flags as they were |
| MessageStyles.FlagsDetermine | lib/ai-service.ts:7-19 | two style records with the same eleven flags are equal |
| AiService.StripQuotes | lib/ai-service.ts:93 | a quote at index 0 and a quote at the last index are removed independently; a lone quote becomes "" |
| AiService.FirstPreamble | lib/ai-service.ts:94 | finds the first of the ten alternatives the text starts with, ignoring ASCII case, and none before it matches |
| AiService.StripPreamble | lib/ai-service.ts:94 | the result is a suffix of the input |
| AiService.StripPreambleFirstMatch | lib/ai-service.ts:94 | without a match at position 0 the text is kept; otherwise exactly the first matching alternative is cut from the front |
| AiService.StripPreambleIff | lib/ai-service.ts:94 | a preamble is removed iff the text starts with one of the ten alternatives |
| AiService.NormalizeTrimmed | lib/ai-service.ts:90-95 | the normalised message has no white space at either end |
| AiService.StripQuotesInfix | lib/ai-service.ts:93 | quote stripping keeps a contiguous piece of its input |
| AiService.StripPreambleInfix | lib/ai-service.ts:94 | preamble stripping keeps a contiguous piece of its input |
| AiService.NormalizeIsInfix | lib/ai-service.ts:90-95 | the normalised message is a contiguous piece of the completion text: nothing is added |
| AiService.ShortTextKeepsStart | lib/ai-service.ts:94 | a text shorter than eight characters never loses a preamble |
| AiService.MessagePreambleRemoved | lib/ai-service.ts:94 | "Message:" is cut from the front, whatever follows it |
| AiService.QuotesAtBothEnds | lib/ai-service.ts:93 | one quote at each end is removed, and the two quote characters need not match |
| AiService.QuoteAtOneEnd | lib/ai-service.ts:93 | a quote at only one end is removed on its own |
| AiService.TrimLeadingSpace | lib/ai-service.ts:95 | the second trim removes the space left after a preamble |
| AiService.QuoteLedKeepsStart | lib/ai-service.ts:94 | a text that starts with a quote never loses a preamble |
| AiService.QuotedPreambleRemoved | lib/ai-service.ts:92-95 | a preamble inside quotes is removed with them: `"Message: x"` gives trim(x) |
| AiService.QuoteAfterPreambleKept | lib/ai-service.ts:92-95 | after a preamble only the closing quote goes: `Message: "y"` gives `"y` |
| AiService.NormalizeNotIdempotent | lib/ai-service.ts:90-95 | normalising twice differs from normalising once for a text in two layers of quotes |
| AiService.EnhanceRequestHoldsOriginal | lib/ai-service.ts:115-145 | the enhancement request holds the original message unaltered, between the fixed instruction and the closing directive |
| AiService.EnhanceMessage | lib/ai-service.ts:147-156 | the enhancement succeeds iff the model gives content; the result is that content only trimmed; a failure has one fixed message |
| AiService.EnhanceKeepsQuotes | lib/ai-service.ts:152 | enhancement keeps the quotes and the preamble that normalisation removes |
| AiService.PushBounded | lib/ai-service.ts:37-44 | the new list ends with the response; it grows by one below 100 entries, and otherwise loses exactly its oldest entry |
| AiService.Newest | lib/ai-service.ts:39-42 | the window of the newest entries never exceeds 100 |
| AiService.PushBoundedNewest | lib/ai-service.ts:37-44 | one save of the newest window is the newest window of the longer history |
| AiService.UsedResponsesWindow | lib/ai-service.ts:37-44 | from at most 100 entries, any run of saves leaves exactly the newest 100 of everything saved, oldest first, so never more than 100 |
| AiService.LocalStore.constructor | lib/ai-service.ts:27-48 | both stored lists start empty |
| AiService.LocalStore.SaveFeedback | lib/ai-service.ts:27-35 | appends exactly one entry, keeps the earlier ones, and leaves the used responses alone |
| AiService.LocalStore.SaveUsedResponse | lib/ai-service.ts:37-44 | the new list is the bounded push, the feedback is untouched, and the 100-entry bound is kept |
| AiService.LocalStore.RecordRegeneratedResponse | lib/ai-service.ts:159-161 | appends one feedback entry marked as regenerated |
| AiService.LocalStore.GenerateAIMessage | lib/ai-service.ts:55-103 | sends the composed prompt; on content it returns the normalised message and records that same message as used; any failure returns one fixed error and records nothing |
| AiService.UnreadFlagsIgnored | lib/icebot.ts:158-167 | foodie, travel, popCulture and humorousScenarios never change the request |
| HomePage.ToggleStyle | app/page.tsx:47-64 | `toggleStyle`; its three cases are stated by `HomePage.ToggleStyleSpec` |
| HomePage.ToggleStyleSpec | app/page.tsx:47-64 | toggling asshole flips it and clears every other flag; another toggle does nothing while asshole is on; otherwise only the toggled flag flips |
| HomePage.ToggleKeepsExclusive | app/page.tsx:47-64 | every toggle keeps "asshole implies no other style" |
| HomePage.ReachableExclusive | app/page.tsx:30-64 | from the all-false start, no sequence of toggles selects asshole together with another style |
| HomePage.ToggleAllKeepsExclusive | app/page.tsx:47-64 | exclusivity survives any sequence of toggles |
| HomePage.ToggleTwice | app/page.tsx:58-63 | toggling the same ordinary style twice while asshole is off restores the state |
| HomePage.ToggleAssholeTwice | app/page.tsx:48-55 | toggling asshole twice restores its flag and leaves no other style on |
| HomePage.GenerateMessage | app/page.tsx:66-79 | the request sent is the ice-breaker request for the profile and the selected styles; a reply replaces the message shown by its normalised text and records it as used; a failure keeps the message and gives the error toast |
| HomePage.HandleVote | app/page.tsx:86-100 | no message means no effect; an upvote asks to save the message; the message is cleared unless the save throws, which shows the error toast |
| ConversationDialog.LastMatchText | components/conversation-dialog.tsx:65-67 | the text of the match's most recent message; stated by `ConversationDialog.LastMatchTextIff` |
| ConversationDialog.LastMatchTextIff | components/conversation-dialog.tsx:65-67 | the answer is built from the text of the match's last message, with no match message after it |
| ConversationDialog.LatestMessageId | components/conversation-dialog.tsx:187-189 | there is no latest id iff every message is the match's |
| ConversationDialog.LatestMessageIdSpec | components/conversation-dialog.tsx:187-189 | the latest id belongs to a message of the user's after which only the match has written |
| ConversationDialog.MessagesBefore | components/conversation-dialog.tsx:132-134 | the messages searched are a prefix of the conversation |
| ConversationDialog.PreviousMatchText | components/conversation-dialog.tsx:131-136 | the text of the match's latest message before the target; stated by `ConversationDialog.PreviousMatchTextAt` and `ConversationDialog.PreviousMatchTextUnknownId` |
| ConversationDialog.PreviousMatchTextAt | components/conversation-dialog.tsx:132-136 | regeneration answers the nearest message of the match strictly before the target |
| ConversationDialog.PreviousMatchTextUnknownId | components/conversation-dialog.tsx:132-136 | with an unknown id, every message but the last is searched |
| ConversationDialog.Usable | components/conversation-dialog.tsx:69 | a looked-up text passes `if (!text)` iff it is present and not empty |
| ConversationDialog.ReplaceText | components/conversation-dialog.tsx:165-167 | same length and order; only the messages with the id get the new text, and nothing else changes |
| ConversationDialog.MarkEnhanced | components/conversation-dialog.tsx:105-107 | same length and order; only the messages with the id get the new text and `isAIEnhanced` |
| ConversationDialog.ReplaceTextKeepsLatestId | components/conversation-dialog.tsx:105-107 | rewriting texts never changes which message is the user's latest |
| ConversationDialog.ReplaceTextIdempotent | components/conversation-dialog.tsx:165-167 | writing the same text twice is writing it once |
| ConversationDialog.ReplaceTextUnknownId | components/conversation-dialog.tsx:105-107 | an id that no message has changes nothing |
| ConversationDialog.AddMessage | components/conversation-dialog.tsx:32-48 | blank text adds nothing; otherwise exactly one message, with the new id, the trimmed text and the time, is appended, the earlier ones are kept, and `lastMessage` is the trimmed text |
| ConversationDialog.AddedMatchMessageIsAnswered | components/conversation-dialog.tsx:32-48 | after the match's message is added, it is the one the next answer is built from |
| ConversationDialog.AddedOwnMessageIsLatest | components/conversation-dialog.tsx:32-48 | after the user's message is added, it is the latest one of the user's |
| ConversationDialog.AddedOwnMessageKeepsSource | components/conversation-dialog.tsx:32-48 | adding the user's message does not change which text the next answer is built from |
| ConversationDialog.EnhanceManualMessage | components/conversation-dialog.tsx:98-125 | the request sent is the enhancement request for the original text; an update happens iff the model gives content; the target gets the trimmed text and the enhanced mark, and `lastMessage` becomes that text even when the target is not last |
| ConversationDialog.EnhanceButtonSendsOwnText | components/conversation-dialog.tsx:227 | the enhance button of a message sends that message's own text, unaltered, inside the request, and a successful reply marks that message as enhanced |
| ConversationDialog.GenerateNewMessage | components/conversation-dialog.tsx:62-96 | without a usable match message nothing is asked and nothing changes; otherwise the ice-breaker request for the match's last message with funny and flirty is sent, and the normalised answer is added as the user's AI-generated message and recorded as used |
| ConversationDialog.RegenerateResponse | components/conversation-dialog.tsx:127-184 | without a usable earlier match message nothing is asked and nothing changes; otherwise the replaced text is recorded as regenerated feedback, the ice-breaker request for the match's message before the target is sent, and the answer replaces the target's text and becomes `lastMessage` |
| ConversationDialog.AnswerPromptNamesMessage | components/conversation-dialog.tsx:74-89 | the match's message the dialog answers fills the Profile line of the prompt sent, verbatim |
| ConversationsPage.Moved | app/conversations/page.tsx:102-104 | moving an element keeps the length |
| ConversationsPage.SplicesMove | app/conversations/page.tsx:102-104 | taking the element out with one splice and inserting it with another is the move |
| ConversationsPage.MovedIsPermutation | app/conversations/page.tsx:102-104 | the reordered list is a permutation of the input |
| ConversationsPage.MovedLandsAtDestination | app/conversations/page.tsx:103-104 | the dragged element ends up at the destination index |
| ConversationsPage.MovedKeepsOthersInOrder | app/conversations/page.tsx:103-104 | the other elements keep their relative order |
| ConversationsPage.MovedBack | app/conversations/page.tsx:102-104 | dragging back from the destination to the source undoes the move |
| ConversationsPage.Renumbered | app/conversations/page.tsx:106-109 | each conversation's `order` becomes its index, and nothing else changes |
| ConversationsPage.OnDragEnd | app/conversations/page.tsx:99-111 | without a destination the list is unchanged; otherwise it is the moved list, renumbered |
| ConversationsPage.DropKeepsConversations | app/conversations/page.tsx:99-111 | after a drop, the dragged conversation is at the destination with that index as its `order` |
| ConversationsPage.ReplaceById | app/conversations/page.tsx:93-97 | same length and ids; only the entries with the updated id are replaced |
| ConversationsPage.ReplaceByIdIdempotent | app/conversations/page.tsx:93-97 | replacing twice is replacing once |
| ConversationsPage.ReplaceByIdUnknown | app/conversations/page.tsx:93-97 | an id not in the list leaves the list unchanged |
| ConversationsPage.NewConversation | app/conversations/page.tsx:56-70 | a blank name is refused; otherwise the draft has the trimmed name, no messages, an empty last message and the list length as its `order` |
| ConversationsPage.NewConversationGoesLast | app/conversations/page.tsx:63-70 | a new conversation's `order` is the first index after the renumbered list |
| SavedPage.Keeps | app/saved/page.tsx:76-80 | the filter callback; stated by `SavedPage.SuccessfulExactly`, `SavedPage.PendingExactly` and `SavedPage.OtherFilterShowsAll` |
| SavedPage.FilteredMessages | app/saved/page.tsx:76-80 | filtering never lengthens the list |
| SavedPage.SuccessfulExactly | app/saved/page.tsx:77 | "successful" shows exactly the messages that worked |
| SavedPage.PendingExactly | app/saved/page.tsx:78 | "pending" shows exactly the messages that have not worked yet |
| SavedPage.OtherFilterShowsAll | app/saved/page.tsx:79 | any other filter value shows every message |
| SavedPage.FilteredKeepsOrder | app/saved/page.tsx:76-80 | filtering distributes over concatenation, so it keeps the order of the list |
| SavedPage.SuccessfulAndPendingPartition | app/saved/page.tsx:77-78 | "successful" and "pending" split the list between them, as multisets and in size |
| SavedPage.ToggleSuccess | app/saved/page.tsx:66-68 | asks the store for the negation of the flag shown, for the same message |
| SavedPage.ToggleSuccessTwice | app/saved/page.tsx:66-68 | toggling twice asks for the flag shown first |
| SavedPage.ToggleSuccessSwapsFilters | app/saved/page.tsx:66-80 | once the toggled flag is stored, the message moves from one of "successful" and "pending" to the other |
| VisionService.ToDataUrl | lib/vision-service.ts:6-8 | the payload always starts with "data:"; a data URL is kept, and anything else gets the JPEG header |
| VisionService.ToDataUrlIdempotent | lib/vision-service.ts:6-8 | making a data URL of a data URL changes nothing |
| VisionService.SizeEstimate | lib/vision-service.ts:11 | the estimate is the ceiling of 3·length/4 of the prefixed payload |
| VisionService.SizeLimitInCharacters | lib/vision-service.ts:11-14 | a payload passes the 4 MiB check iff it has at most 5592405 characters |
| VisionService.Rethrown | lib/vision-service.ts:76 | the rethrown message is never empty and keeps a non-empty original message |
| VisionService.AnalyzeProfileImage | lib/vision-service.ts:3-78 | no request is made iff the estimate exceeds 4 MiB; otherwise the analysis is the content when it is non-empty, and an error otherwise |
| VisionService.AnalysisUntrimmed | lib/vision-service.ts:73 | the analysis is returned with its surrounding white space |
| VisionService.EmptyAnalysisRejected | lib/vision-service.ts:69-71 | missing or empty content fails with "No analysis generated" |
| VisionService.ErrorMessagePreserved | lib/vision-service.ts:62-65 | a thrown message or a non-OK status's error field survives the rethrow |
| AnalyzeRoute.SecondField | app/api/analyze/route.ts:46 | there is no second field iff there is no comma; a second field contains no comma and follows a comma |
| AnalyzeRoute.CheckImage | app/api/analyze/route.ts:30-52 | the three checks in order: missing or empty, then the "data:image/" prefix, then an empty base64 part; the first failure decides |
| AnalyzeRoute.Post | app/api/analyze/route.ts:26-95 | an unreadable body gives 500; a failed check gives 400 with its message; a passed image is forwarded, and then non-empty content gives 200 with that analysis, missing or empty content gives 500 "No analysis generated", and a model failure gives 500 with its message, or "Failed to analyze image" when that message is empty |
| AnalyzeRoute.Rethrown | app/api/analyze/route.ts:88-94 | the 500 message is never empty and keeps a non-empty error message |
| AnalyzeRoute.ForwardsWholeUrl | app/api/analyze/route.ts:71 | the whole data URL, header included, is sent to the model |
| AnalyzeRoute.ChecksDecideStatus | app/api/analyze/route.ts:30-94 | status 400 iff a check fails; the model is asked iff the checks pass; no other status is possible |
| AnalyzeRoute.ModelFailuresAre500 | app/api/analyze/route.ts:81-94 | a model failure keeps its message in a 500; missing or empty content is a 500 "No analysis generated" |
| AnalyzeRoute.EmptyDataRefused | app/api/analyze/route.ts:46-52 | a data URL with nothing after the comma is refused as invalid data |
| ScanPage.HandleImageUpload | app/scan/page.tsx:19-43 | no file does nothing; a non-image type and a file over 4 MiB are refused with their toasts; an accepted file sets the image to what the reader holds and clears the message, with the read-error toast when reading failed; only an accepted file changes the state |
| ScanPage.SizeBoundInclusive | app/scan/page.tsx:29-32 | a file of exactly 4 MiB is accepted and one byte more is refused |
| ScanPage.AcceptedFileClearsMessage | app/scan/page.tsx:34-38 | an accepted file that is read replaces the image and clears the message |
| ScanPage.ChainResult | app/scan/page.tsx:72-89 | a failed analysis gives its error; otherwise the outcome is the normalised ice breaker for the analysis; an error never has an empty message |
| ScanPage.AnalyzeThenGenerate | app/scan/page.tsx:72-89 | the ice breaker is requested only after an analysis succeeds, with the analysis as profile; the used responses change only on success |
| ScanPage.AnalyzeProfile | app/scan/page.tsx:65-96 | without an image nothing happens; otherwise the message is cleared first and set on success, and a failure gives the error toast |
| ScanPage.RegenerateMessage | app/scan/page.tsx:98-123 | like analysis, but a failure keeps the message shown |
| ScanPage.ScanPromptAsksQuestion | app/scan/page.tsx:76-88 | the prompt written from a photo asks for a closing question |
| ScanPage.HandleVote | app/scan/page.tsx:125-135 | every vote clears the message and the image; an upvote appends the message shown, even an empty one |
| ScanPage.VoteDisablesAnalysis | app/scan/page.tsx:125-135 | after a vote the analysis handlers do nothing until a new image is chosen |
| ProfileService.WithFlagReads | lib/profile-service.ts:3-12 | setting one flag reads back as set and leaves the other seven flags as they were |
| ProfileService.FlagsDetermine | lib/profile-service.ts:3-12 | two style records with the same eight flags are equal |
| ProfileService.EnabledMembership | lib/profile-service.ts:48-50 | a key is enabled iff it is among the keys considered and its flag is set |
| ProfileService.EnabledTraitsInKeyOrder | lib/profile-service.ts:48-50 | the enabled keys come in record key order: funny, mysterious, intellectual, adventurous, romantic, ambitious, creative, athletic |
| ProfileService.NameInjective | lib/profile-service.ts:48-50 | distinct keys have distinct names |
| ProfileService.NamesMembership | lib/profile-service.ts:48-50 | a key's name is listed iff the key is |
| ProfileService.NameListedIffEnabled | lib/profile-service.ts:48-54 | a style name is on the Styles line iff its flag is set |
| ProfileService.StylesLineInPrompt | lib/profile-service.ts:54 | the Styles line, the enabled names joined by ", ", is a whole line of the prompt |
| ProfileService.LengthLineInPrompt | lib/profile-service.ts:55 | the Length line with the chosen length is a whole line of the prompt |
| ProfileService.LengthRuleInPrompt | lib/profile-service.ts:61 | the chosen length also appears in the "(length)" guideline |
| ProfileService.ToneLineInPrompt | lib/profile-service.ts:56 | the Tone line with the chosen tone is a whole line of the prompt |
| ProfileService.PromptEnding | lib/profile-service.ts:72 | the prompt always ends with "Respond with ONLY the profile text." |
| ProfileService.NoStylesLine | lib/profile-service.ts:48-54 | no name is listed iff no flag is set, and then the line is exactly "Styles: " |
| ProfileService.Prompt | lib/profile-service.ts:52-72 | the user prompt, the template with the styles, length and tone filled in; stated by the four `…InPrompt` lemmas and `ProfileService.PromptEnding` |
| ProfileService.Request | lib/profile-service.ts:74-100 | the request sent: the model, the prompt and 500 tokens |
| ProfileService.ProfileOutcome | lib/profile-service.ts:102-111 | the profile is the trimmed content when there is content; any failure is "Failed to generate profile" |
| ProfileService.ProfileOutcomeTrimmed | lib/profile-service.ts:107 | the profile returned has no white space at either end |
| GenerateProfilePage.InitialState | app/generate-profile/page.tsx:31-45 | all eight flags start off, length "medium", tone "casual", and no profile |
| GenerateProfilePage.ToggleStyle | app/generate-profile/page.tsx:47-52 | `toggleStyle`; stated by `GenerateProfilePage.ToggleFlipsOnlyNamed` and `GenerateProfilePage.ToggleTwice` |
| GenerateProfilePage.ToggleFlipsOnlyNamed | app/generate-profile/page.tsx:47-52 | a toggle flips the named flag and leaves the other seven alone |
| GenerateProfilePage.ToggleTwice | app/generate-profile/page.tsx:47-52 | toggling the same flag twice restores the record |
| GenerateProfilePage.GenerateProfile | app/generate-profile/page.tsx:54-68 | the request sent is the profile request for the chosen styles, length and tone; generation always ends; the choices are kept; on content the profile is the service's result, and on failure the old profile stays and the error toast is shown |
| GenerateProfilePage.GenerateProfileSendsChoices | app/generate-profile/page.tsx:54-60 | the request's prompt holds the chosen styles, the length (twice) and the tone, each on a whole line |
| ProfilePage.HandleSave | app/profile/page.tsx:57-65 | a save goes through iff name, age, gender and location are non-empty; it stores the whole record, and a refusal keeps the stored entry |
| ProfilePage.LoadSettings | app/profile/page.tsx:50-55 | a stored entry replaces the settings, and without one they stay |
| ProfilePage.DefaultsIncomplete | app/profile/page.tsx:36-44 | every default field is empty except slangLevel "moderate", and the defaults cannot be saved |
| ProfilePage.OptionalFieldsNotRequired | app/profile/page.tsx:58 | seeking, intention and slangLevel never decide whether a save goes through |
| ProfilePage.SaveThenLoad | app/profile/page.tsx:50-63 | what is saved is loaded back unchanged |
| ProfilePage.RejectedSaveKeepsStored | app/profile/page.tsx:58-61 | a refused save leaves the earlier settings to be loaded |
| AuthProvider.OnAuthStateChanged | components/auth-provider.tsx:27-37 | records the user and stops loading; a signed-out user off "/auth" is sent to "/auth"; a signed-in user on "/auth" is sent to "/"; otherwise there is no redirect |
| AuthProvider.RendersChildren | components/auth-provider.tsx:43-56 | the page is shown iff loading is over and the user is signed in or on "/auth" |
| AuthProvider.OnlyAuthIsPublic | components/auth-provider.tsx:18 | "/auth" is the only public path |
| AuthProvider.NothingWhileLoading | components/auth-provider.tsx:21-45 | nothing is shown before the first report |
| AuthProvider.RedirectSettles | components/auth-provider.tsx:32-36 | a redirect always leads elsewhere, and the next report there redirects no more |
| AuthProvider.ShownUnlessSentAway | components/auth-provider.tsx:27-50 | after a report the page is shown iff there was no redirect or the user is signed in, so a signed-out user never sees a protected page |

## Left out

- Network calls are not modelled. The OpenRouter `fetch` calls and the OpenAI client become the reply they produce, which is a parameter.
- Sampling parameters are not modelled. They are floating-point constants (`temperature`, `top_p` and the penalties) with no effect on the logic.
- The persona and instruction texts are tags, not text. This covers `ICEBOT_PERSONA.personality`, the enhancer's system text, `PROFILE_PERSONA` and `VISION_PROMPT`. The guidance blocks of `generatePrompt` and the user prompts are literal text.
- The vision model and route settings (model name, `max_tokens`, message layout) are not modelled. Only the image URL sent is recorded.
- Firebase and Firestore are not part of this model. This covers lib/db-service.ts, lib/auth-service.ts, app/auth/page.tsx and app/settings/page.tsx. It also covers the store calls the pages make: `addSavedMessage`, `updateConversation`, `updateConversationOrder`, `addConversation`, `handleDelete` and the reloads after them. A store call is modelled only as its request, or as a parameter saying whether it throws.
- Local storage is modelled as in-memory values, not as JSON text. The two logs are sequences in `AiService.LocalStore`; the saved settings and the scan page's saved list are values.
- `getUsedResponses` is not modelled. It only reads the log back, and the code never calls it.
- Clock readings and ids are parameters. `addMessage` reads the clock twice (`new Date()`); the model uses one `now` for both.
- JSX rendering, toasts, the clipboard and theme toggling are left out. Toasts appear only as the text a handler would show.
- The file reader is a parameter: what it leaves in `reader.result`, `None` when reading failed. A failed read shows the `onerror` toast, and the `loadend` handler still sets the image.
- The drag-and-drop library is left out, and so are `handleDrag` and `handleDrop` on the photo page. The library's source and destination indices are assumed to lie within the list (the `requires` of `ConversationsPage.OnDragEnd`).
- Async races are left out. This covers the stale `messageStyle` read in app/page.tsx:56 and requests triggered twice.
- The `isGenerating`, `isAnalyzing`, `enhancingId` and `regeneratingId` flags are left out, except on the profile generator. They only disable buttons while a request runs.
- The `catch` branch of `addMessage` (a store failure) is not modelled. The update is returned as the conversation to store.
- A JSON body whose `image` is a non-string truthy value is modelled as a missing image. The route would throw on `startsWith` and answer 500.
- GenerateProfilePage.ToggleStyle: toggles of two different flags are not proved to commute; only single and repeated toggles of one flag are.


/** The records of lib/types.ts. Optional TypeScript properties (`x?: T`)
    become `Option<T>`; ids and ISO timestamps are plain strings. */
module Types {
  import opened Wrappers

  /** One message of a conversation; `isMatch` marks a message written by the match. */
  datatype Message = Message(
    id: string,
    text: string,
    isMatch: bool,
    isAIGenerated: Option<bool>,
    isAIEnhanced: Option<bool>,
    timestamp: string)

  /** A conversation with one match, in the user's ordered list. */
  datatype Conversation = Conversation(
    id: string,
    name: string,
    messages: seq<Message>,
    lastMessage: string,
    timestamp: string,
    userId: string,
    order: Option<int>,
    success: Option<bool>)

  /** A message the user kept, with whether it worked. */
  datatype SavedMessage = SavedMessage(
    id: string,
    text: string,
    timestamp: string,
    userId: string,
    success: bool)
}

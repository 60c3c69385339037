/** The conversation list of app/conversations/page.tsx: moving a
    conversation by drag and drop (which renumbers every `order`), putting
    an updated conversation back into the list, and the draft of a new
    conversation. The drag-and-drop library supplies the indices; the
    clock, the signed-in user and the store are parameters. */
module ConversationsPage {
  import opened Wrappers
  import opened Text
  import opened Types

  // ---------------------------------------------------------------------
  // Moving one element
  // ---------------------------------------------------------------------

  /** `s` with the element at `from` taken out and put back at `to`: the
      elements between the two positions shift by one towards `from`. */
  function Moved<T>(s: seq<T>, from: nat, to: nat): (r: seq<T>)
    requires from < |s| && to < |s|
    ensures |r| == |s|
  {
    seq(|s|, i requires 0 <= i < |s| =>
      if i == to then s[from]
      else if from < to && from <= i < to then s[i + 1]
      else if to < from && to < i <= from then s[i - 1]
      else s[i])
  }

  /** `s` without its element at `i`. */
  function Without<T>(s: seq<T>, i: nat): (r: seq<T>)
    requires i < |s|
    ensures |r| == |s| - 1
  {
    s[..i] + s[i + 1..]
  }

  /** Taking the element out with one `splice` and inserting it with
      another is the move. */
  lemma SplicesMove<T>(s: seq<T>, from: nat, to: nat)
    requires from < |s| && to < |s|
    ensures var rest := Without(s, from);
      rest[..to] + [s[from]] + rest[to..] == Moved(s, from, to)
  {
    var rest := Without(s, from);
    var spliced := rest[..to] + [s[from]] + rest[to..];
    var moved := Moved(s, from, to);
    forall i | 0 <= i < |s| ensures spliced[i] == moved[i] {
      if i < to {
        assert spliced[i] == rest[i];
      } else if i > to {
        assert spliced[i] == rest[i - 1];
      }
    }
  }

  /** Moving an element keeps every element, as often as before. */
  lemma MovedIsPermutation<T>(s: seq<T>, from: nat, to: nat)
    requires from < |s| && to < |s|
    ensures multiset(Moved(s, from, to)) == multiset(s)
  {
    var rest := Without(s, from);
    SplicesMove(s, from, to);
    assert s == s[..from] + [s[from]] + s[from + 1..];
    assert rest == rest[..to] + rest[to..];
    assert multiset(rest) + multiset{s[from]} == multiset(s);
  }

  /** The moved element ends up at the destination. */
  lemma MovedLandsAtDestination<T>(s: seq<T>, from: nat, to: nat)
    requires from < |s| && to < |s|
    ensures Moved(s, from, to)[to] == s[from]
  {
  }

  /** Apart from the moved element, the elements keep their relative order. */
  lemma MovedKeepsOthersInOrder<T>(s: seq<T>, from: nat, to: nat)
    requires from < |s| && to < |s|
    ensures Without(Moved(s, from, to), to) == Without(s, from)
  {
    var m := Moved(s, from, to);
    var a := Without(m, to);
    var b := Without(s, from);
    forall i | 0 <= i < |a| ensures a[i] == b[i] {
      if i < to {
        assert a[i] == m[i];
      } else {
        assert a[i] == m[i + 1];
      }
      if i < from {
        assert b[i] == s[i];
      } else {
        assert b[i] == s[i + 1];
      }
    }
  }

  /** Dragging the element back to where it came from undoes the move. */
  lemma MovedBack<T>(s: seq<T>, from: nat, to: nat)
    requires from < |s| && to < |s|
    ensures Moved(Moved(s, from, to), to, from) == s
  {
    var m := Moved(s, from, to);
    var back := Moved(m, to, from);
    forall i | 0 <= i < |s| ensures back[i] == s[i] {
      if i == from {
      } else if to < from && to <= i < from {
        assert back[i] == m[i + 1];
      } else if from < to && from < i <= to {
        assert back[i] == m[i - 1];
      } else {
        assert back[i] == m[i];
      }
    }
  }

  // ---------------------------------------------------------------------
  // The handlers
  // ---------------------------------------------------------------------

  /** The list with each conversation's `order` set to its index. */
  function Renumbered(cs: seq<Conversation>): (r: seq<Conversation>)
    ensures |r| == |cs|
    ensures forall i :: 0 <= i < |r| ==> r[i].order == Some(i)
    ensures forall i :: 0 <= i < |r| ==> r[i].(order := cs[i].order) == cs[i]
  {
    seq(|cs|, i requires 0 <= i < |cs| => cs[i].(order := Some(i)))
  }

  /** `onDragEnd`: without a destination the list stays as it is; otherwise
      the dragged conversation moves from `source` to the destination, and
      every conversation's `order` becomes its new index. Both indices come
      from the drag-and-drop library, which only reports positions within
      the list. */
  method OnDragEnd(conversations: seq<Conversation>, source: nat, destination: Option<nat>)
    returns (updated: seq<Conversation>)
    requires source < |conversations|
    requires destination.Some? ==> destination.value < |conversations|
    ensures destination.None? ==> updated == conversations
    ensures destination.Some? ==> updated == Renumbered(Moved(conversations, source, destination.value))
  {
    if destination.None? {
      return conversations;
    }
    var items := conversations;
    var reordered := items[source];
    items := items[..source] + items[source + 1..];
    items := items[..destination.value] + [reordered] + items[destination.value..];
    SplicesMove(conversations, source, destination.value);
    updated := Renumbered(items);
  }

  /** After a drop, the dragged conversation sits at the destination with
      that index as its `order`, and every `order` is its index. */
  lemma DropKeepsConversations(cs: seq<Conversation>, source: nat, destination: nat)
    requires source < |cs| && destination < |cs|
    ensures var r := Renumbered(Moved(cs, source, destination));
      |r| == |cs| && r[destination] == cs[source].(order := Some(destination)) &&
      forall i :: 0 <= i < |r| ==> r[i].order == Some(i)
  {
  }

  /** `updateConversation`: every conversation with the updated one's id is
      replaced by it; the others stay in place. */
  function ReplaceById(cs: seq<Conversation>, updated: Conversation): (r: seq<Conversation>)
    ensures |r| == |cs|
    ensures forall i :: 0 <= i < |r| ==> r[i].id == cs[i].id
    ensures forall i :: 0 <= i < |r| && cs[i].id != updated.id ==> r[i] == cs[i]
    ensures forall i :: 0 <= i < |r| && cs[i].id == updated.id ==> r[i] == updated
  {
    seq(|cs|, i requires 0 <= i < |cs| => if cs[i].id == updated.id then updated else cs[i])
  }

  /** Putting the same conversation back twice is putting it back once. */
  lemma ReplaceByIdIdempotent(cs: seq<Conversation>, updated: Conversation)
    ensures ReplaceById(ReplaceById(cs, updated), updated) == ReplaceById(cs, updated)
  {
  }

  /** A conversation that is not in the list leaves the list unchanged. */
  lemma ReplaceByIdUnknown(cs: seq<Conversation>, updated: Conversation)
    requires forall i :: 0 <= i < |cs| ==> cs[i].id != updated.id
    ensures ReplaceById(cs, updated) == cs
  {
  }

  /** The fields `handleAddConversation` sends to the store; the store
      assigns the id. */
  datatype Draft = Draft(name: string, messages: seq<Message>, lastMessage: string,
                         timestamp: string, userId: string, order: nat)

  const MissingName := "Please enter their name"

  /** `handleAddConversation`: a name that trims to nothing is refused;
      otherwise the draft carries the trimmed name, no messages, an empty
      last message and the position after the last conversation. */
  function NewConversation(name: string, now: string, userId: string, count: nat): (r: Result<Draft>)
    ensures r.Err? <==> Trim(name) == ""
    ensures r.Err? ==> r.message == MissingName
    ensures r.Ok? ==>
      r.value.name == Trim(name) && r.value.name != "" &&
      r.value.messages == [] && r.value.lastMessage == "" && r.value.order == count &&
      r.value.timestamp == now && r.value.userId == userId
  {
    var trimmed := Trim(name);
    if trimmed == "" then Err(MissingName)
    else Ok(Draft(trimmed, [], "", now, userId, count))
  }

  /** A new conversation goes after every existing one: its `order` is the
      first index past the renumbered list. */
  lemma NewConversationGoesLast(cs: seq<Conversation>, name: string, now: string, userId: string)
    requires Trim(name) != ""
    ensures var d := NewConversation(name, now, userId, |cs|);
      d.Ok? && forall i :: 0 <= i < |cs| ==> Renumbered(cs)[i].order.value < d.value.order
  {
  }
}

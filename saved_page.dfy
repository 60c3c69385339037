/** The saved-messages page of app/saved/page.tsx: the filter chosen in
    its select ("all", "successful" or "pending") and the request that
    flips a message's success flag. */
module SavedPage {
  import opened Seqs
  import opened Types

  const Successful := "successful"
  const Pending := "pending"

  /** Whether the filter lets `m` through. */
  predicate Keeps(filter: string, m: SavedMessage) {
    if filter == Successful then m.success
    else if filter == Pending then !m.success
    else true
  }

  /** `filteredMessages`. */
  function FilteredMessages(ms: seq<SavedMessage>, filter: string): (r: seq<SavedMessage>)
    ensures |r| <= |ms|
  {
    Filter(ms, (m: SavedMessage) => Keeps(filter, m))
  }

  /** "successful" shows exactly the messages that worked. */
  lemma SuccessfulExactly(ms: seq<SavedMessage>, m: SavedMessage)
    ensures m in FilteredMessages(ms, Successful) <==> m in ms && m.success
  {
    FilterMembership(ms, (x: SavedMessage) => Keeps(Successful, x), m);
  }

  /** "pending" shows exactly the messages that have not worked yet. */
  lemma PendingExactly(ms: seq<SavedMessage>, m: SavedMessage)
    ensures m in FilteredMessages(ms, Pending) <==> m in ms && !m.success
  {
    FilterMembership(ms, (x: SavedMessage) => Keeps(Pending, x), m);
  }

  /** Any other filter value, "all" included, shows every message. */
  lemma OtherFilterShowsAll(ms: seq<SavedMessage>, filter: string)
    requires filter != Successful && filter != Pending
    ensures FilteredMessages(ms, filter) == ms
  {
    FilterAll(ms, (x: SavedMessage) => Keeps(filter, x));
  }

  /** The filtered list keeps the order of the full list: filtering a list
      made of two parts filters each part in turn. */
  lemma FilteredKeepsOrder(a: seq<SavedMessage>, b: seq<SavedMessage>, filter: string)
    ensures FilteredMessages(a + b, filter) == FilteredMessages(a, filter) + FilteredMessages(b, filter)
  {
    FilterAppend(a, b, (x: SavedMessage) => Keeps(filter, x));
  }

  /** Every saved message is shown by exactly one of "successful" and
      "pending". */
  lemma SuccessfulAndPendingPartition(ms: seq<SavedMessage>)
    ensures multiset(FilteredMessages(ms, Successful)) + multiset(FilteredMessages(ms, Pending)) == multiset(ms)
    ensures |FilteredMessages(ms, Successful)| + |FilteredMessages(ms, Pending)| == |ms|
  {
    FilterPartition(ms, (x: SavedMessage) => Keeps(Successful, x), (x: SavedMessage) => Keeps(Pending, x));
  }

  /** The update `toggleSuccess` sends to the store. */
  datatype StatusUpdate = StatusUpdate(id: string, success: bool)

  /** `toggleSuccess`: asks to store the negation of the flag shown. */
  function ToggleSuccess(id: string, currentSuccess: bool): (r: StatusUpdate)
    ensures r.id == id && r.success != currentSuccess
  {
    StatusUpdate(id, !currentSuccess)
  }

  /** Toggling twice asks for the flag that was shown first. */
  lemma ToggleSuccessTwice(id: string, currentSuccess: bool)
    ensures ToggleSuccess(id, ToggleSuccess(id, currentSuccess).success).success == currentSuccess
  {
  }

  /** Once the toggled flag is stored, the message moves from one of
      "successful" and "pending" to the other. */
  lemma ToggleSuccessSwapsFilters(m: SavedMessage)
    ensures var t := m.(success := ToggleSuccess(m.id, m.success).success);
      (Keeps(Successful, t) <==> Keeps(Pending, m)) && (Keeps(Pending, t) <==> Keeps(Successful, m))
  {
  }
}

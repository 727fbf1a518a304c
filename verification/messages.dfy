/** The contact-message list of the admin dashboard: a case-insensitive
    search over name, e-mail and message text, and deletion of one message
    from both the full and the displayed list. */
module Messages {
  import opened Common
  import opened Text
  import opened Seqs

  /** A contact-form submission. The timestamp and its formatted form are
      display-only and left out. */
  datatype Message = Message(id: string, name: string, email: string, body: string)

  /** The panel's state: every message, the displayed (filtered) ones, the
      search box, the message open in the detail view and the one the delete
      confirmation is about. */
  datatype Panel = Panel(
    messages: seq<Message>,
    filtered: seq<Message>,
    searchTerm: string,
    viewing: Option<Message>,
    toDelete: Option<Message>)

  /** A message matches when its lower-cased name, e-mail or text includes
      the lower-cased, untrimmed search term. `lower` stands for
      `toLowerCase`. */
  predicate Matches(m: Message, term: string, lower: string -> string) {
    || Includes(lower(m.name), lower(term))
    || Includes(lower(m.email), lower(term))
    || Includes(lower(m.body), lower(term))
  }

  /** `Matches` as a filter callback. */
  function MatchesTerm(term: string, lower: string -> string): Message -> bool {
    (m: Message) => Matches(m, term, lower)
  }

  /** The search effect: a search term that trims to nothing shows every
      message; otherwise exactly the matching messages are shown, in their
      original order and multiplicity. The full list is only read. */
  function Search(messages: seq<Message>, term: string, lower: string -> string): (r: seq<Message>)
    ensures IsBlank(term) ==> r == messages
    ensures !IsBlank(term) ==> forall i :: 0 <= i < |r| ==> Matches(r[i], term, lower)
    ensures !IsBlank(term) ==> forall i :: 0 <= i < |messages| && Matches(messages[i], term, lower) ==> messages[i] in r
    ensures !IsBlank(term) ==> IsFilterOf(r, messages, MatchesTerm(term, lower))
    ensures IsSubsequence(r, messages)
  {
    if Trim(term) == "" then
      SubsequenceReflexive(messages);
      messages
    else
      FilterMeetsSpec(messages, MatchesTerm(term, lower));
      Filter(messages, MatchesTerm(term, lower))
  }

  /** A non-blank term that no message matches shows an empty list. */
  lemma NoMatchShowsNothing(messages: seq<Message>, term: string, lower: string -> string)
    requires !IsBlank(term)
    requires forall i :: 0 <= i < |messages| ==> !Matches(messages[i], term, lower)
    ensures Search(messages, term, lower) == []
  {
  }

  /** The search effect applied to the panel: only the displayed list
      changes. */
  function ApplySearch(p: Panel, lower: string -> string): (r: Panel)
    ensures r.messages == p.messages && r.searchTerm == p.searchTerm
    ensures r.viewing == p.viewing && r.toDelete == p.toDelete
    ensures IsSubsequence(r.filtered, r.messages)
  {
    p.(filtered := Search(p.messages, p.searchTerm, lower))
  }

  /** `handleViewMessage`: opens the detail view on a message; the lists
      and the pending delete stay. */
  function ViewMessage(p: Panel, m: Message): (r: Panel)
    ensures r.viewing == Some(m)
    ensures r.messages == p.messages && r.filtered == p.filtered
    ensures r.searchTerm == p.searchTerm && r.toDelete == p.toDelete
  {
    p.(viewing := Some(m))
  }

  /** `handleDeletePrompt`: records the message the delete confirmation is
      about; the lists and the detail view stay. */
  function DeletePrompt(p: Panel, m: Message): (r: Panel)
    ensures r.toDelete == Some(m)
    ensures r.messages == p.messages && r.filtered == p.filtered
    ensures r.searchTerm == p.searchTerm && r.viewing == p.viewing
  {
    p.(toDelete := Some(m))
  }

  /** The Delete button of the detail view: the viewed message becomes the
      one the delete confirmation is about and the detail view closes. The
      button exists only while a message is viewed, so without one nothing
      changes. */
  function DeleteFromView(p: Panel): (r: Panel)
    ensures p.viewing.None? ==> r == p
    ensures p.viewing.Some? ==> r.toDelete == p.viewing && r.viewing.None?
    ensures r.messages == p.messages && r.filtered == p.filtered && r.searchTerm == p.searchTerm
  {
    match p.viewing
    case None => p
    case Some(m) => p.(toDelete := Some(m), viewing := None)
  }

  /** Filter callback keeping the messages whose id differs from `id`. */
  function OtherThan(id: string): Message -> bool {
    (m: Message) => m.id != id
  }

  /** The local part of `deleteMessage`. Nothing happens without a pending
      message or when the remote delete fails. On success no message with
      that id remains in either list, every other message stays in its
      place and order, and the detail view is closed exactly when it showed
      a message with that id. */
  function DeleteMessage(p: Panel, outcome: WriteOutcome): (r: Panel)
    ensures p.toDelete.None? ==> r == p
    ensures outcome.Failure? ==> r == p
    ensures p.toDelete.Some? && outcome.Success? ==>
      var id := p.toDelete.value.id;
      && IsFilterOf(r.messages, p.messages, OtherThan(id))
      && IsFilterOf(r.filtered, p.filtered, OtherThan(id))
      && (forall i :: 0 <= i < |r.messages| ==> r.messages[i].id != id)
      && (forall i :: 0 <= i < |r.filtered| ==> r.filtered[i].id != id)
      && (p.viewing.Some? && p.viewing.value.id == id ==> r.viewing.None?)
      && (p.viewing.None? || p.viewing.value.id != id ==> r.viewing == p.viewing)
    ensures r.searchTerm == p.searchTerm && r.toDelete == p.toDelete
  {
    match p.toDelete
    case None => p
    case Some(target) =>
      match outcome
      case Failure => p
      case Success =>
        var id := target.id;
        FilterMeetsSpec(p.messages, OtherThan(id));
        FilterMeetsSpec(p.filtered, OtherThan(id));
        p.(messages := Filter(p.messages, OtherThan(id)),
           filtered := Filter(p.filtered, OtherThan(id)),
           viewing := if p.viewing.Some? && p.viewing.value.id == id then None else p.viewing)
  }

  /** Deleting keeps the displayed list consistent with the search: when it
      showed the search result before, it shows the search result of the
      shortened list afterwards, which is what the search effect recomputes
      once the full list changes. */
  lemma DeleteAgreesWithSearch(p: Panel, outcome: WriteOutcome, lower: string -> string)
    requires p.filtered == Search(p.messages, p.searchTerm, lower)
    ensures DeleteMessage(p, outcome).filtered == Search(DeleteMessage(p, outcome).messages, p.searchTerm, lower)
  {
    if p.toDelete.Some? && outcome.Success? && !IsBlank(p.searchTerm) {
      FilterCommutes(p.messages, MatchesTerm(p.searchTerm, lower), OtherThan(p.toDelete.value.id));
    }
  }

  /** Deleting the message open in the detail view removes it from both
      lists and closes the view. */
  lemma DeleteViewedMessageScenario(m: Message, others: seq<Message>, lower: string -> string)
    requires forall i :: 0 <= i < |others| ==> others[i].id != m.id
    ensures
      var p := Panel([m] + others, [m] + others, "", Some(m), Some(m));
      var r := DeleteMessage(p, Success);
      && r.viewing.None?
      && m !in r.messages && m !in r.filtered
      && r.messages == others && r.filtered == others
  {
    var p := Panel([m] + others, [m] + others, "", Some(m), Some(m));
    var r := DeleteMessage(p, Success);
    FilterMeetsSpec(others, OtherThan(m.id));
    assert Filter(others, OtherThan(m.id)) == others by {
      FilterKeepsAll(others, OtherThan(m.id));
    }
    assert ([m] + others)[1..] == others;
  }

  /** Opening a message, pressing Delete in its view and confirming removes
      every message with its id from both lists, keeps the others in order,
      and leaves the view closed. */
  lemma DeleteFromViewScenario(p: Panel, m: Message)
    ensures
      var r := DeleteMessage(DeleteFromView(ViewMessage(p, m)), Success);
      && r.viewing.None?
      && r.toDelete == Some(m)
      && IsFilterOf(r.messages, p.messages, OtherThan(m.id))
      && IsFilterOf(r.filtered, p.filtered, OtherThan(m.id))
      && (forall i :: 0 <= i < |r.messages| ==> r.messages[i].id != m.id)
      && (forall i :: 0 <= i < |r.filtered| ==> r.filtered[i].id != m.id)
  {
  }
}

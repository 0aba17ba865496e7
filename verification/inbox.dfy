/** The event inbox view: loading the pending events, the search and status
    filter over them, card selection, and what a click on "Acknowledge" does
    to the list and to the stored counter. */
module Inbox {
  import opened Wrappers
  import opened Seqs
  import opened Text
  import opened Numbers
  import opened Json
  import opened Api
  import AckCounter

  const LoadFailedText: string := "Failed to load events"
  const AckFailedText: string := "Failed to acknowledge event"

  /** The view's state. `filterStatus` is `null` or `"pending"` in the page;
      an empty string would count as no filter, as it is falsy. */
  datatype InboxView = InboxView(
    events: seq<EventItem>,
    selected: Option<string>,
    searchTerm: string,
    filterStatus: Option<string>,
    error: Option<string>)

  /** The search part of the filter: the lower-cased term occurs in the
      lower-cased source (an absent source never matches) or in the
      lower-cased serialised payload. */
  predicate MatchesSearch(e: EventItem, term: string) {
    || (e.source.Some? && Includes(Lower(e.source.value), Lower(term)))
    || Includes(Lower(Serialize(e.payload)), Lower(term))
  }

  /** The status part of the filter: no filter, or an equal status. */
  predicate MatchesStatus(e: EventItem, status: Option<string>) {
    status.None? || status.value == "" || e.status == status.value
  }

  function Keep(term: string, status: Option<string>): EventItem -> bool {
    e => MatchesSearch(e, term) && MatchesStatus(e, status)
  }

  /** `filteredEvents`: the events the list shows. */
  function FilteredEvents(events: seq<EventItem>, term: string, status: Option<string>): (r: seq<EventItem>)
    ensures IsSubsequence(r, events)
    ensures forall e :: e in r <==>
              && e in events
              && (|| (e.source.Some? && Includes(Lower(e.source.value), Lower(term)))
                  || Includes(Lower(Serialize(e.payload)), Lower(term)))
              && (status.None? || status.value == "" || e.status == status.value)
    ensures forall e :: multiset(r)[e] ==
              if MatchesSearch(e, term) && MatchesStatus(e, status) then multiset(events)[e] else 0
  {
    FilterSpec(Keep(term, status), events);
    Filter(Keep(term, status), events)
  }

  /** Filtering the filtered list again with the same term and status changes nothing. */
  lemma FilterTwice(events: seq<EventItem>, term: string, status: Option<string>)
    ensures FilteredEvents(FilteredEvents(events, term, status), term, status)
         == FilteredEvents(events, term, status)
  {
    FilterIdempotent(Keep(term, status), events);
  }

  /** With an empty search box and no status filter every event is shown. */
  lemma EmptySearchShowsAll(events: seq<EventItem>)
    ensures FilteredEvents(events, "", None) == events
  {
    forall i | 0 <= i < |events|
      ensures Keep("", None)(events[i])
    {
      IncludesEmpty(Lower(Serialize(events[i].payload)));
    }
    FilterKeepsAll(Keep("", None), events);
  }

  /** `fetchEvents`: a successful load replaces the list and clears the error;
      a failed one keeps the list and shows the error's message. */
  function Refresh(view: InboxView, reply: Result<InboxResponse, ApiFailure>): (r: InboxView)
    ensures reply.Ok? ==> r.events == reply.value.events && r.error.None?
    ensures reply.Err? ==> r.events == view.events && r.error == Some(FailureText(reply.error, LoadFailedText))
    ensures r.selected == view.selected && r.searchTerm == view.searchTerm && r.filterStatus == view.filterStatus
  {
    match reply
    case Ok(inbox) => view.(events := inbox.events, error := None)
    case Err(f) => view.(error := Some(FailureText(f, LoadFailedText)))
  }

  function IdIsNot(id: string): EventItem -> bool {
    (e: EventItem) => e.id != id
  }

  /** What `handleAcknowledge` leaves behind: the view, the stored counter,
      the alert shown (if any) and whether the "acknowledged" notification
      was broadcast. */
  datatype AckResult = AckResult(
    view: InboxView,
    storedCount: Option<string>,
    alert: Option<string>,
    notified: bool)

  /** `handleAcknowledge(eventId)` once the acknowledge call has settled
      with `reply`. On success the event leaves the list, the selection is
      cleared and the counter goes up by one; on failure only an alert is
      shown. */
  function Acknowledge(view: InboxView, eventId: string, reply: Result<AcknowledgeResponse, ApiFailure>,
                       storedCount: Option<string>): (r: AckResult)
    ensures reply.Ok? ==>
              && IsSubsequence(r.view.events, view.events)
              && (forall e :: e in r.view.events <==> e in view.events && e.id != eventId)
              && (forall e: EventItem :: e.id != eventId ==> multiset(r.view.events)[e] == multiset(view.events)[e])
              && r.view.selected.None?
              && r.storedCount.Some?
              && AckCounter.ReadCount(r.storedCount) == Increment(AckCounter.ReadCount(storedCount))
              && r.alert.None? && r.notified
    ensures reply.Ok? && storedCount.None? ==> r.storedCount == Some("1")
    ensures reply.Err? ==>
              && r.view == view
              && r.storedCount == storedCount
              && !r.notified
              && r.alert == Some(if reply.error.HttpError?
                                 then AckFailedText + ": " + reply.error.err.message
                                 else AckFailedText)
    ensures r.view.searchTerm == view.searchTerm && r.view.filterStatus == view.filterStatus
    ensures r.view.error == view.error
  {
    match reply
    case Ok(_) =>
      FilterSpec(IdIsNot(eventId), view.events);
      AckResult(
        view.(events := Filter(IdIsNot(eventId), view.events), selected := None),
        Some(AckCounter.Bumped(storedCount)),
        None,
        true)
    case Err(f) =>
      AckResult(
        view,
        storedCount,
        Some(if f.HttpError? then AckFailedText + ": " + f.err.message else AckFailedText),
        false)
  }

  /** A server's rejection reaches the page: a non-2xx reply whose body
      carries a string `message` shows that message as the inbox error and
      after "Failed to acknowledge event: " in the alert. */
  lemma ServerMessageShown(view: InboxView, eventId: string, storedCount: Option<string>,
                           status: int, body: Json, m: string)
    requires !IsOk(status)
    requires Member(body, "message") == Some(JString(m))
    ensures var f := Complete(Some(Reply(status, Some(body))));
            && f.Err?
            && Refresh(view, Err(f.error)).error == Some(m)
            && Acknowledge(view, eventId, Err(f.error), storedCount).alert == Some(AckFailedText + ": " + m)
  {
  }

  /** A failure that is no `APIError` (a fetch that rejected, an unreadable
      or null body) shows only the view's own wording. */
  lemma OtherFailureShown(view: InboxView, eventId: string, storedCount: Option<string>, reply: Option<Reply>)
    requires reply.None? || reply.value.body.None? || (!IsOk(reply.value.status) && reply.value.body == Some(JNull))
    ensures var f := Complete(reply);
            && f.Err?
            && Refresh(view, Err(f.error)).error == Some(LoadFailedText)
            && Acknowledge(view, eventId, Err(f.error), storedCount).alert == Some(AckFailedText)
  {
  }

  /** Clicking a card: the selected card closes, any other opens. */
  function ClickCard(selected: Option<string>, id: string): (r: Option<string>)
    ensures r.None? <==> selected == Some(id)
    ensures r.Some? ==> r.value == id
  {
    if selected == Some(id) then None else Some(id)
  }

  /** Clicking the same card twice restores a closed or same-card selection. */
  lemma ClickCardTwice(selected: Option<string>, id: string)
    requires selected.None? || selected == Some(id)
    ensures ClickCard(ClickCard(selected, id), id) == selected
  {
  }

  /** The "Pending" button: switches the status filter between none and "pending". */
  function TogglePending(filter: Option<string>): (r: Option<string>)
    ensures r == Some(PendingStatus) <==> filter != Some(PendingStatus)
    ensures r.None? <==> filter == Some(PendingStatus)
  {
    if filter == Some(PendingStatus) then None else Some(PendingStatus)
  }

  /** On the two values the buttons produce, the "Pending" button is an involution. */
  lemma TogglePendingTwice(filter: Option<string>)
    requires filter.None? || filter == Some(PendingStatus)
    ensures TogglePending(TogglePending(filter)) == filter
  {
  }

  /** The "All" button clears the status filter. */
  function ShowAll(view: InboxView): (r: InboxView)
    ensures r.filterStatus.None?
    ensures r.events == view.events && r.searchTerm == view.searchTerm && r.selected == view.selected
    ensures r.error == view.error
  {
    view.(filterStatus := None)
  }
}

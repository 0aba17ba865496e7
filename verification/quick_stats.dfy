/** The four stat cards at the top of the dashboard and where their numbers
    come from: the stats endpoint when it answers, otherwise the inbox list
    and the stored acknowledged counter. */
module QuickStats {
  import opened Wrappers
  import opened Seqs
  import opened Numbers
  import opened Api
  import AckCounter

  datatype ApiStatus = Unknown | Healthy | Error

  /** The cards' numbers. The acknowledged count may come from a stored
      string and so may be NaN. */
  datatype DashboardStats = DashboardStats(
    totalEvents: int,
    pendingEvents: int,
    acknowledgedEvents: JsNumber,
    apiStatus: ApiStatus)

  /** The fallback asks for up to 100 inbox events. */
  const FallbackQuery: InboxParams := InboxParams(Some(100), None, None, None)

  /** The fallback's request is a GET of `/v1/events/inbox?limit=100`. */
  lemma FallbackRequest(base: string)
    ensures GetInboxRequest(base, Some(FallbackQuery)).url == base + "/v1/events/inbox?limit=" + IntToString(100)
    ensures IntToString(100) == "100"
    ensures GetInboxRequest(base, Some(FallbackQuery)).verb == Get
  {
    LimitOnlyRequest(base, 100);
    SmallNumerals();
  }

  function IsPending(): EventItem -> bool {
    (e: EventItem) => e.status == PendingStatus
  }

  lemma PendingPositions(events: seq<EventItem>)
    ensures |Filter(IsPending(), events)| == |set i | 0 <= i < |events| && events[i].status == PendingStatus|
  {
    FilterSize(IsPending(), events);
    assert Positions(IsPending(), events) == set i | 0 <= i < |events| && events[i].status == PendingStatus;
  }

  /** The number of listed events whose status is "pending". */
  function PendingCount(events: seq<EventItem>): (r: nat)
    ensures r == |set i | 0 <= i < |events| && events[i].status == PendingStatus|
    ensures r <= |events|
    ensures r == 0 <==> forall e :: e in events ==> e.status != PendingStatus
    ensures (forall e :: e in events ==> e.status == PendingStatus) ==> r == |events|
  {
    PendingPositions(events);
    FilterSpec(IsPending(), events);
    var kept := Filter(IsPending(), events);
    assert kept == [] ==> forall e :: e in events ==> e.status != PendingStatus;
    assert kept != [] ==> kept[0] in kept;
    assert (forall e :: e in events ==> e.status == PendingStatus) ==> |kept| == |events| by {
      if forall e :: e in events ==> e.status == PendingStatus {
        FilterKeepsAll(IsPending(), events);
      }
    }
    |kept|
  }

  /** The fallback's numbers from a loaded inbox and the stored counter. */
  function FromInbox(inbox: InboxResponse, stored: Option<string>): (r: DashboardStats)
    ensures r.pendingEvents == PendingCount(inbox.events)
    ensures r.totalEvents == if inbox.total != 0 then inbox.total else PendingCount(inbox.events)
    ensures r.acknowledgedEvents == AckCounter.ReadCount(stored)
    ensures stored.None? ==> r.acknowledgedEvents == Num(0)
    ensures r.apiStatus == Healthy
  {
    var pending := PendingCount(inbox.events);
    DashboardStats(if inbox.total != 0 then inbox.total else pending, pending,
                   AckCounter.ReadCount(stored), Healthy)
  }

  /** `fetchStats` once its calls have settled: the stats endpoint's reply,
      the fallback inbox reply (consulted only when the first failed) and
      the stored counter. */
  function FetchStats(prev: DashboardStats, statsReply: Result<StatsResponse, ApiFailure>,
                      inboxReply: Result<InboxResponse, ApiFailure>, stored: Option<string>): (r: DashboardStats)
    ensures statsReply.Ok? ==>
              r == DashboardStats(statsReply.value.total, statsReply.value.pending,
                                  Num(statsReply.value.acknowledged), Healthy)
    ensures statsReply.Err? && inboxReply.Ok? ==>
              && r.pendingEvents == PendingCount(inboxReply.value.events)
              && r.totalEvents == (if inboxReply.value.total != 0 then inboxReply.value.total
                                   else r.pendingEvents)
              && r.acknowledgedEvents == AckCounter.ReadCount(stored)
              && r.apiStatus == Healthy
    ensures statsReply.Err? && inboxReply.Err? ==>
              r == prev.(apiStatus := Error)
    ensures r.apiStatus == Error <==> statsReply.Err? && inboxReply.Err?
  {
    match statsReply
    case Ok(s) => DashboardStats(s.total, s.pending, Num(s.acknowledged), Healthy)
    case Err(_) =>
      match inboxReply
      case Ok(inbox) => FromInbox(inbox, stored)
      case Err(_) => prev.(apiStatus := Error)
  }

  /** A failed refresh keeps the numbers on the cards: after any sequence of
      refreshes in which both calls fail, only the status has changed. */
  lemma {:induction false} FailuresKeepCounts(prev: DashboardStats, n: nat, f: ApiFailure, g: ApiFailure,
                                              stored: Option<string>)
    ensures var r := RepeatFailed(prev, n, f, g, stored);
            && r.totalEvents == prev.totalEvents
            && r.pendingEvents == prev.pendingEvents
            && r.acknowledgedEvents == prev.acknowledgedEvents
            && (n > 0 ==> r.apiStatus == Error)
  {
    if n > 0 {
      FailuresKeepCounts(prev, n - 1, f, g, stored);
    }
  }

  /** `n` refreshes in which both calls fail. */
  function RepeatFailed(prev: DashboardStats, n: nat, f: ApiFailure, g: ApiFailure,
                        stored: Option<string>): DashboardStats
  {
    if n == 0 then prev else FetchStats(RepeatFailed(prev, n - 1, f, g, stored), Err(f), Err(g), stored)
  }

  /** In the fallback after one acknowledgement, the acknowledged card shows
      one more than before (NaN stays NaN). */
  lemma FallbackAfterAcknowledge(prev: DashboardStats, f: ApiFailure, inbox: InboxResponse, stored: Option<string>)
    ensures FetchStats(prev, Err(f), Ok(inbox), Some(AckCounter.Bumped(stored))).acknowledgedEvents
         == Increment(FetchStats(prev, Err(f), Ok(inbox), stored).acknowledgedEvents)
  {
  }
}

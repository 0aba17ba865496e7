/** The "recent activity" feed: the newest inbox events and the newest
    entries of the stored acknowledgement ledger, merged, newest first, five
    at most. */
module RecentActivity {
  import opened Wrappers
  import opened Seqs
  import opened Api
  import opened Numbers

  const UnknownSourceText: string := "unknown source"
  const ReceivedPrefix: string := "New event received from "
  const AcknowledgedPrefix: string := "Event acknowledged: "
  const AckIdPrefix: string := "ack-"
  const MaxReceived: nat := 5
  const MaxAcknowledged: nat := 3
  const MaxShown: nat := 5

  /** The feed asks for up to 10 inbox events. */
  const ActivityQuery: InboxParams := InboxParams(Some(10), None, None, None)

  /** The feed's request is a GET of `/v1/events/inbox?limit=10`. */
  lemma ActivityRequest(base: string)
    ensures GetInboxRequest(base, Some(ActivityQuery)).url == base + "/v1/events/inbox?limit=" + IntToString(10)
    ensures IntToString(10) == "10"
    ensures GetInboxRequest(base, Some(ActivityQuery)).verb == Get
  {
    LimitOnlyRequest(base, 10);
    SmallNumerals();
  }

  datatype ActivityKind = Received | Acknowledged

  /** One feed line. `timestamp` is in milliseconds. */
  datatype Activity = Activity(
    id: string,
    kind: ActivityKind,
    message: string,
    timestamp: int,
    eventId: string)

  /** An entry of the stored `acknowledgedEvents` ledger. */
  datatype LedgerEntry = LedgerEntry(id: string, acknowledgedAt: Option<int>)

  function ActivityTime(a: Activity): int {
    a.timestamp
  }

  /** The feed line for a received event; a missing or empty source reads
      "unknown source". */
  function ReceivedItem(e: EventItem): (r: Activity)
    ensures r.id == e.id && r.eventId == e.id && r.kind == Received && r.timestamp == e.timestamp
    ensures e.source.None? || e.source.value == "" ==> r.message == ReceivedPrefix + UnknownSourceText
    ensures e.source.Some? && e.source.value != "" ==> r.message == ReceivedPrefix + e.source.value
  {
    var source := if e.source.Some? && e.source.value != "" then e.source.value else UnknownSourceText;
    Activity(e.id, Received, ReceivedPrefix + source, e.timestamp, e.id)
  }

  /** `id.substring(0, 8)`. */
  function ShortId(id: string): (r: string)
    ensures |r| <= 8 && r <= id
    ensures |id| <= 8 ==> r == id
    ensures |id| > 8 ==> |r| == 8
  {
    if |id| <= 8 then id else id[..8]
  }

  /** The feed line for a ledger entry; a missing or zero acknowledgement
      time reads as `now`. */
  function AcknowledgedItem(entry: LedgerEntry, now: int): (r: Activity)
    ensures r.id == AckIdPrefix + entry.id && r.eventId == entry.id && r.kind == Acknowledged
    ensures r.message == AcknowledgedPrefix + ShortId(entry.id) + "..."
    ensures r.timestamp == if entry.acknowledgedAt.Some? && entry.acknowledgedAt.value != 0
                           then entry.acknowledgedAt.value else now
  {
    var at := if entry.acknowledgedAt.Some? && entry.acknowledgedAt.value != 0
              then entry.acknowledgedAt.value else now;
    Activity(AckIdPrefix + entry.id, Acknowledged, AcknowledgedPrefix + ShortId(entry.id) + "...", at, entry.id)
  }

  function ReceivedItems(events: seq<EventItem>): (r: seq<Activity>)
    ensures |r| == |events|
    ensures forall i :: 0 <= i < |r| ==> r[i] == ReceivedItem(events[i])
  {
    seq(|events|, i requires 0 <= i < |events| => ReceivedItem(events[i]))
  }

  function AcknowledgedItems(ledger: seq<LedgerEntry>, now: int): (r: seq<Activity>)
    ensures |r| == |ledger|
    ensures forall i :: 0 <= i < |r| ==> r[i] == AcknowledgedItem(ledger[i], now)
  {
    seq(|ledger|, i requires 0 <= i < |ledger| => AcknowledgedItem(ledger[i], now))
  }

  /** The lines before sorting: the first five events, then the first three
      ledger entries. An unreadable ledger adds nothing. */
  function Candidates(events: seq<EventItem>, ledger: Option<seq<LedgerEntry>>, now: int): (r: seq<Activity>)
    ensures var received := Take(events, MaxReceived);
            var acked := if ledger.Some? then Take(ledger.value, MaxAcknowledged) else [];
            && |r| == |received| + |acked|
            && (forall i :: 0 <= i < |received| ==> r[i] == ReceivedItem(events[i]))
            && (forall i :: 0 <= i < |acked| ==> r[|received| + i] == AcknowledgedItem(acked[i], now))
  {
    var acked := if ledger.Some? then Take(ledger.value, MaxAcknowledged) else [];
    ReceivedItems(Take(events, MaxReceived)) + AcknowledgedItems(acked, now)
  }

  /** `fetchActivities` once its calls have settled: a loaded inbox gives the
      merged lines sorted newest first (ties keep their order) and cut to
      five; a failed load gives an empty feed. */
  function FetchActivities(reply: Result<InboxResponse, ApiFailure>, ledger: Option<seq<LedgerEntry>>,
                           now: int): (r: seq<Activity>)
    ensures reply.Err? ==> r == []
    ensures |r| <= MaxShown
    ensures SortedDesc(ActivityTime, r)
    ensures reply.Ok? ==>
              var c := Candidates(reply.value.events, ledger, now);
              && |r| == (if |c| <= MaxShown then |c| else MaxShown)
              && multiset(r) <= multiset(c)
              && forall t :: Filter(KeyIs(ActivityTime, t), r) <= Filter(KeyIs(ActivityTime, t), c)
  {
    match reply
    case Err(_) => []
    case Ok(inbox) =>
      var c := Candidates(inbox.events, ledger, now);
      var sorted := SortDesc(ActivityTime, c);
      TakeSorted(ActivityTime, sorted, MaxShown);
      TiesKeepCandidateOrder(c);
      Take(sorted, MaxShown)
  }

  /** Sorting is stable and the cut keeps a prefix, so the lines shown at
      one time are the first of the candidates at that time, in candidate
      order. */
  lemma TiesKeepCandidateOrder(c: seq<Activity>)
    ensures forall t :: Filter(KeyIs(ActivityTime, t), Take(SortDesc(ActivityTime, c), MaxShown))
                        <= Filter(KeyIs(ActivityTime, t), c)
  {
    forall t ensures Filter(KeyIs(ActivityTime, t), Take(SortDesc(ActivityTime, c), MaxShown))
                     <= Filter(KeyIs(ActivityTime, t), c) {
      FilterTakePrefix(KeyIs(ActivityTime, t), SortDesc(ActivityTime, c), MaxShown);
      SortDescStable(ActivityTime, c, t);
    }
  }

  /** Every shown received line is one of the first five events; every shown
      acknowledged line is one of the first three ledger entries, under an
      "ack-" id. */
  lemma ShownComeFromSources(reply: Result<InboxResponse, ApiFailure>, ledger: Option<seq<LedgerEntry>>,
                             now: int, a: Activity)
    requires a in FetchActivities(reply, ledger, now)
    ensures reply.Ok?
    ensures a.kind == Received ==>
              exists i :: 0 <= i < |reply.value.events| && i < MaxReceived && a == ReceivedItem(reply.value.events[i])
    ensures a.kind == Acknowledged ==>
              && ledger.Some?
              && exists i :: 0 <= i < |ledger.value| && i < MaxAcknowledged && a == AcknowledgedItem(ledger.value[i], now)
  {
    ShownIsCandidate(reply, ledger, now, a);
    var c := Candidates(reply.value.events, ledger, now);
    var k :| 0 <= k < |c| && c[k] == a;
    CandidateOrigin(reply.value.events, ledger, now, k);
  }

  /** A shown line is one of the candidates of a loaded inbox. */
  lemma ShownIsCandidate(reply: Result<InboxResponse, ApiFailure>, ledger: Option<seq<LedgerEntry>>,
                         now: int, a: Activity)
    requires a in FetchActivities(reply, ledger, now)
    ensures reply.Ok? && a in Candidates(reply.value.events, ledger, now)
  {
    assert multiset(FetchActivities(reply, ledger, now))[a] > 0;
  }

  /** Where the candidate at position `k` comes from. */
  lemma CandidateOrigin(events: seq<EventItem>, ledger: Option<seq<LedgerEntry>>, now: int, k: nat)
    requires k < |Candidates(events, ledger, now)|
    ensures var a := Candidates(events, ledger, now)[k];
            || (k < |events| && k < MaxReceived && a == ReceivedItem(events[k]))
            || (&& ledger.Some?
                && exists i :: 0 <= i < |ledger.value| && i < MaxAcknowledged && a == AcknowledgedItem(ledger.value[i], now))
  {
    var received := Take(events, MaxReceived);
    if k >= |received| {
      var i := k - |received|;
      assert Candidates(events, ledger, now)[k] == AcknowledgedItem(ledger.value[i], now);
    }
  }

  /** A line left out of the feed is no newer than any line shown. */
  lemma DroppedNotNewer(reply: Result<InboxResponse, ApiFailure>, ledger: Option<seq<LedgerEntry>>,
                        now: int, a: Activity)
    requires reply.Ok?
    requires a in Candidates(reply.value.events, ledger, now)
    ensures a !in FetchActivities(reply, ledger, now) ==>
              forall b :: b in FetchActivities(reply, ledger, now) ==> a.timestamp <= b.timestamp
  {
    var c := Candidates(reply.value.events, ledger, now);
    var sorted := SortDesc(ActivityTime, c);
    var r := FetchActivities(reply, ledger, now);
    if a !in r {
      assert r == Take(sorted, MaxShown);
      assert multiset(r)[a] == 0;
      assert multiset(c)[a] > 0;
      TopKeepsLargest(ActivityTime, sorted, MaxShown, a);
    }
  }

  /** An unreadable ledger gives the same feed as an empty one: the received
      lines still show. */
  lemma UnreadableLedgerIgnored(reply: Result<InboxResponse, ApiFailure>, now: int)
    ensures FetchActivities(reply, None, now) == FetchActivities(reply, Some([]), now)
  {
    if reply.Ok? {
      assert Candidates(reply.value.events, None, now) == Candidates(reply.value.events, Some([]), now);
    }
  }
}

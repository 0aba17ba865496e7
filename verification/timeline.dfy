/** The event timeline: events bucketed by calendar day, newest day first,
    each bucket in list order. */
module Timeline {
  import opened Seqs
  import opened Api

  const MsPerDay: int := 86_400_000

  /** The calendar day of a millisecond timestamp (days since the epoch,
      rounded down); it stands in for `toLocaleDateString`. */
  function DayOf(ts: int): (r: int)
    ensures r * MsPerDay <= ts < (r + 1) * MsPerDay
  {
    ts / MsPerDay
  }

  function EventDay(e: EventItem): int {
    DayOf(e.timestamp)
  }

  /** `groupedEvents`: one bucket per day, in the order the days were first
      met; each bucket holds that day's events in list order. */
  function GroupedEvents(events: seq<EventItem>): (r: seq<(int, seq<EventItem>)>)
    ensures forall i, j :: 0 <= i < j < |r| ==> r[i].0 != r[j].0
    ensures forall i :: 0 <= i < |r| ==> r[i].1 == Filter(KeyIs(EventDay, r[i].0), events) && |r[i].1| > 0
    ensures forall e :: e in events ==> exists i :: 0 <= i < |r| && r[i].0 == EventDay(e)
    ensures TotalSize(r) == |events|
  {
    GroupByIsGrouping(EventDay, events);
    GroupBySize(EventDay, events);
    GroupBy(EventDay, events)
  }

  /** Every event sits in exactly one bucket, the one for its day, and a
      bucket lists its events in the order the list had them. */
  lemma EventInItsBucket(events: seq<EventItem>, e: EventItem, i: nat)
    requires i < |GroupedEvents(events)|
    ensures e in GroupedEvents(events)[i].1 <==> e in events && EventDay(e) == GroupedEvents(events)[i].0
    ensures IsSubsequence(GroupedEvents(events)[i].1, events)
  {
    var g := GroupedEvents(events);
    FilterSpec(KeyIs(EventDay, g[i].0), events);
  }

  /** The sort key of a bucket's day: the day number itself, so that later
      days sort first. */
  function Day(d: int): int {
    d
  }

  function Keys(g: seq<(int, seq<EventItem>)>): (r: seq<int>)
    ensures |r| == |g|
    ensures forall i :: 0 <= i < |r| ==> r[i] == g[i].0
  {
    seq(|g|, i requires 0 <= i < |g| => g[i].0)
  }

  /** The days that have events, one per bucket. */
  lemma {:induction false} KeysAreEventDays(events: seq<EventItem>)
    ensures forall d :: d in Keys(GroupedEvents(events)) <==> exists e :: e in events && EventDay(e) == d
  {
    var g := GroupedEvents(events);
    var keys := Keys(g);
    forall d | d in keys ensures exists e :: e in events && EventDay(e) == d {
      var i :| 0 <= i < |keys| && keys[i] == d;
      FilterSpec(KeyIs(EventDay, d), events);
      assert g[i].1[0] in g[i].1;
    }
    forall d | exists e :: e in events && EventDay(e) == d ensures d in keys {
      var e :| e in events && EventDay(e) == d;
      var i :| 0 <= i < |g| && g[i].0 == EventDay(e);
      assert keys[i] == d;
    }
  }

  /** Sorting the bucket days keeps them distinct, so the order is strict. */
  lemma SortedKeysStrict(keys: seq<int>)
    requires forall i, j :: 0 <= i < j < |keys| ==> keys[i] != keys[j]
    ensures forall i, j :: 0 <= i < j < |SortDesc(Day, keys)| ==> SortDesc(Day, keys)[i] > SortDesc(Day, keys)[j]
  {
    var r := SortDesc(Day, keys);
    forall i, j | 0 <= i < j < |r| ensures r[i] > r[j] {
      assert Day(r[i]) >= Day(r[j]);
      if r[i] == r[j] {
        TwiceMeansTwo(r, i, j);
        DistinctOnce(keys, r[i]);
        assert false;
      }
    }
  }

  /** `sortedDates`: each day that has events, once, newest first. */
  function SortedDates(events: seq<EventItem>): (r: seq<int>)
    ensures |r| == |GroupedEvents(events)|
    ensures forall i, j :: 0 <= i < j < |r| ==> r[i] > r[j]
    ensures forall d :: d in r <==> exists e :: e in events && EventDay(e) == d
  {
    var keys := Keys(GroupedEvents(events));
    SortedKeysStrict(keys);
    KeysAreEventDays(events);
    SameMembers(SortDesc(Day, keys), keys);
    SortDesc(Day, keys)
  }
}

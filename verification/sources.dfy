/** The "event sources" chart: how many inbox events came from each source,
    as counts and rounded percentages, largest first, top five only. */
module SourceChart {
  import opened Wrappers
  import opened Seqs
  import opened Numbers
  import opened Api

  const UnknownSource: string := "unknown"
  const TopSources: nat := 5

  /** One pie slice: a source, its event count and its share in percent. */
  datatype SourceSlice = SourceSlice(name: string, value: nat, percentage: int)

  /** `event.source || "unknown"`: a missing or empty source counts as "unknown". */
  function SourceOf(e: EventItem): (r: string)
    ensures r != ""
    ensures e.source.None? || e.source.value == "" ==> r == UnknownSource
  {
    if e.source.Some? && e.source.value != "" then e.source.value else UnknownSource
  }

  /** The number of events attributed to `name`. */
  function CountOf(events: seq<EventItem>, name: string): nat {
    |Filter(KeyIs(SourceOf, name), events)|
  }

  /** One (source, count) entry per group, in the order the sources were
      first seen, which is the order the page's assignments create them. */
  function Tally(groups: seq<(string, seq<EventItem>)>): (r: seq<(string, nat)>)
    ensures |r| == |groups|
    ensures forall i :: 0 <= i < |r| ==> r[i] == (groups[i].0, |groups[i].1|)
  {
    seq(|groups|, i requires 0 <= i < |groups| => (groups[i].0, |groups[i].1|))
  }

  function Sum(counts: seq<(string, nat)>): nat {
    if |counts| == 0 then 0 else counts[0].1 + Sum(counts[1..])
  }

  /** `sourceCounts`: how many events each source has. */
  function SourceCounts(events: seq<EventItem>): (r: seq<(string, nat)>)
    ensures forall i, j :: 0 <= i < j < |r| ==> r[i].0 != r[j].0
    ensures forall i :: 0 <= i < |r| ==> r[i].1 == CountOf(events, r[i].0) && r[i].1 > 0
    ensures forall e :: e in events ==> exists i :: 0 <= i < |r| && r[i].0 == SourceOf(e)
    ensures forall i, j :: 0 <= i < j < |r| ==> FirstSeen(SourceOf, events, r[i].0) < FirstSeen(SourceOf, events, r[j].0)
  {
    GroupByIsGrouping(SourceOf, events);
    GroupByFirstSeen(SourceOf, events);
    Tally(GroupBy(SourceOf, events))
  }

  lemma {:induction false} SumTally(g: seq<(string, seq<EventItem>)>)
    ensures Sum(Tally(g)) == TotalSize(g)
  {
    if |g| > 0 {
      SumTally(g[1..]);
      assert Tally(g)[1..] == Tally(g[1..]);
    }
  }

  /** Before truncation the per-source counts add up to the number of events. */
  lemma CountsAddUp(events: seq<EventItem>)
    ensures Sum(SourceCounts(events)) == |events|
  {
    SumTally(GroupBy(SourceOf, events));
    GroupBySize(SourceOf, events);
  }

  /** The entries with their percentages of `total`. */
  function Slices(counts: seq<(string, nat)>, total: int): (r: seq<SourceSlice>)
    requires total > 0
    ensures |r| == |counts|
    ensures forall i :: 0 <= i < |r| ==>
              r[i] == SourceSlice(counts[i].0, counts[i].1, RoundedPercent(counts[i].1, total))
  {
    seq(|counts|, i requires 0 <= i < |counts| =>
          SourceSlice(counts[i].0, counts[i].1, RoundedPercent(counts[i].1, total)))
  }

  function SliceValue(s: SourceSlice): int {
    s.value
  }

  /** `total || 1`: the divisor of the percentages. */
  function Denominator(events: seq<EventItem>): (r: nat)
    ensures r > 0 && r >= |events|
  {
    if |events| == 0 then 1 else |events|
  }

  /** `s` is a faithful slice for `events`: its count is the number of events
      from that source, and its percentage is that count's share of all
      events rounded to the nearest integer. */
  ghost predicate SliceFor(events: seq<EventItem>, s: SourceSlice) {
    && s.value == CountOf(events, s.name)
    && 0 < s.value <= |events|
    && s.percentage == RoundedPercent(s.value, Denominator(events))
  }

  /** The unsorted entries, one per source seen. */
  function AllSlices(events: seq<EventItem>): (r: seq<SourceSlice>)
    ensures forall x :: x in r ==> SliceFor(events, x)
    ensures forall e :: e in events ==> exists x :: x in r && x.name == SourceOf(e)
    ensures forall i, j :: 0 <= i < j < |r| ==> r[i].name != r[j].name
    ensures forall i, j :: 0 <= i < j < |r| ==> FirstSeen(SourceOf, events, r[i].name) < FirstSeen(SourceOf, events, r[j].name)
  {
    var counts := SourceCounts(events);
    var r := Slices(counts, Denominator(events));
    assert forall x :: x in r ==> SliceFor(events, x) by {
      forall x | x in r ensures SliceFor(events, x) {
        var i :| 0 <= i < |r| && r[i] == x;
        FilterSpec(KeyIs(SourceOf, x.name), events);
      }
    }
    assert forall e :: e in events ==> exists x :: x in r && x.name == SourceOf(e) by {
      forall e | e in events
        ensures exists x :: x in r && x.name == SourceOf(e)
      {
        var i :| 0 <= i < |counts| && counts[i].0 == SourceOf(e);
        assert r[i] in r;
      }
    }
    r
  }

  // ---------------------------------------------------------------------------
  // The order `Object.entries` lists an object's own names in

  /** 2^32 - 1: the array indices are the numbers below it. */
  const MaxArrayIndex: nat := 0xFFFF_FFFF

  /** The number a property name stands for when it is an array index: the
      canonical decimal form of a number below 2^32 - 1 ("7", but not "07"
      or "-1"). */
  function ArrayIndex(name: string): (r: Option<nat>)
    ensures r.Some? ==> r.value < MaxArrayIndex && name == NatToString(r.value)
    ensures r.None? ==> forall n: nat :: n < MaxArrayIndex ==> name != NatToString(n)
  {
    if && |name| > 0
       && (forall i :: 0 <= i < |name| ==> IsDigit(name[i]))
       && DigitsValue(name) < MaxArrayIndex
       && NatToString(DigitsValue(name)) == name
    then Some(DigitsValue(name))
    else
      assert forall n: nat :: n < MaxArrayIndex ==> name != NatToString(n) by {
        forall n: nat | n < MaxArrayIndex ensures name != NatToString(n) {
          DigitsOfNat(n);
        }
      }
      None
  }

  function IsIndexed(): SourceSlice -> bool {
    (s: SourceSlice) => ArrayIndex(s.name).Some?
  }

  function NotIndexed(): SourceSlice -> bool {
    (s: SourceSlice) => ArrayIndex(s.name).None?
  }

  /** Under `SortDesc`, smaller indices first. */
  function IndexKey(s: SourceSlice): int {
    match ArrayIndex(s.name)
    case Some(v) => -(v as int)
    case None => 0
  }

  /** `Object.entries` of entries created in the given order: the
      array-index names first, in ascending numeric order, then the other
      names in creation order. */
  function EntriesOrder(entries: seq<SourceSlice>): (r: seq<SourceSlice>)
    ensures multiset(r) == multiset(entries)
    ensures forall i, j :: 0 <= i < j < |r| && ArrayIndex(r[j].name).Some? ==>
              && ArrayIndex(r[i].name).Some?
              && ArrayIndex(r[i].name).value <= ArrayIndex(r[j].name).value
    ensures Filter(NotIndexed(), r) == Filter(NotIndexed(), entries)
  {
    var indexed := SortDesc(IndexKey, Filter(IsIndexed(), entries));
    var named := Filter(NotIndexed(), entries);
    PartitionMultiset(entries);
    IndexedAscending(indexed, named, Filter(IsIndexed(), entries));
    FilterAppend(NotIndexed(), indexed, named);
    FilterIdempotent(NotIndexed(), entries);
    FilterDropsAll(NotIndexed(), indexed);
    indexed + named
  }

  /** The two filters split the entries. */
  lemma PartitionMultiset(entries: seq<SourceSlice>)
    ensures multiset(SortDesc(IndexKey, Filter(IsIndexed(), entries))) + multiset(Filter(NotIndexed(), entries))
            == multiset(entries)
  {
    FilterSpec(IsIndexed(), entries);
    FilterSpec(NotIndexed(), entries);
  }

  /** Sorted indexed names followed by unindexed ones put every indexed name
      first, in ascending order. */
  lemma IndexedAscending(indexed: seq<SourceSlice>, named: seq<SourceSlice>, unsorted: seq<SourceSlice>)
    requires SortedDesc(IndexKey, indexed)
    requires multiset(indexed) == multiset(unsorted)
    requires forall i :: 0 <= i < |unsorted| ==> IsIndexed()(unsorted[i])
    requires forall i :: 0 <= i < |named| ==> NotIndexed()(named[i])
    ensures forall i :: 0 <= i < |indexed| ==> !NotIndexed()(indexed[i])
    ensures var r := indexed + named;
            forall i, j :: 0 <= i < j < |r| && ArrayIndex(r[j].name).Some? ==>
              && ArrayIndex(r[i].name).Some?
              && ArrayIndex(r[i].name).value <= ArrayIndex(r[j].name).value
  {
    SameMembers(indexed, unsorted);
    assert forall i :: 0 <= i < |indexed| ==> ArrayIndex(indexed[i].name).Some? by {
      forall i | 0 <= i < |indexed| ensures ArrayIndex(indexed[i].name).Some? {
        assert indexed[i] in unsorted;
      }
    }
  }

  /** All entries, in `Object.entries` order and then sorted by count,
      before keeping the top five. */
  function RankedSlices(events: seq<EventItem>): (r: seq<SourceSlice>)
    ensures SortedDesc(SliceValue, r)
    ensures forall x :: x in r ==> SliceFor(events, x)
    ensures forall e :: e in events ==> exists x :: x in r && x.name == SourceOf(e)
    ensures forall x :: multiset(r)[x] <= 1
  {
    var all := AllSlices(events);
    var ordered := EntriesOrder(all);
    var r := SortDesc(SliceValue, ordered);
    assert multiset(r) == multiset(all);
    SameMembers(r, all);
    assert forall x :: multiset(r)[x] <= 1 by {
      forall x ensures multiset(r)[x] <= 1 {
        DistinctNamesOnce(all, x);
      }
    }
    r
  }

  /** Elements with pairwise different names occur once each. */
  lemma {:induction false} DistinctNamesOnce(s: seq<SourceSlice>, x: SourceSlice)
    requires forall i, j :: 0 <= i < j < |s| ==> s[i].name != s[j].name
    ensures multiset(s)[x] <= 1
  {
    if |s| > 0 {
      DistinctNamesOnce(s[1..], x);
      assert s == [s[0]] + s[1..];
      if s[0] == x {
        assert forall j :: 0 <= j < |s[1..]| ==> s[1..][j] != x by {
          forall j | 0 <= j < |s[1..]| ensures s[1..][j] != x {
            assert s[0].name != s[j + 1].name;
          }
        }
        assert multiset(s[1..])[x] == 0;
      }
    }
  }

  /** The ranked entries carry pairwise different names: equal names would
      mean equal counts and percentages, hence the same entry twice. */
  lemma RankedNamesDistinct(events: seq<EventItem>)
    ensures forall i, j :: 0 <= i < j < |RankedSlices(events)| ==>
              RankedSlices(events)[i].name != RankedSlices(events)[j].name
  {
    var r := RankedSlices(events);
    forall i, j | 0 <= i < j < |r|
      ensures r[i].name != r[j].name
    {
      assert r[i] in r && r[j] in r;
      if r[i].name == r[j].name {
        assert r[i] == r[j];
        TwiceMeansTwo(r, i, j);
        assert false;
      }
    }
  }

  /** Sources with equal counts keep the `Object.entries` order: array-index
      names first, ascending, then the others in first-seen order. */
  lemma TiesInEntriesOrder(events: seq<EventItem>, c: int)
    ensures Filter(KeyIs(SliceValue, c), RankedSlices(events))
            == Filter(KeyIs(SliceValue, c), EntriesOrder(AllSlices(events)))
  {
    SortDescStable(SliceValue, EntriesOrder(AllSlices(events)), c);
  }

  /** Where a slice's source first occurs among the events. */
  function FirstSeenAt(events: seq<EventItem>): SourceSlice -> int {
    (x: SourceSlice) => FirstSeen(SourceOf, events, x.name)
  }

  /** Among sources with equal counts, those that are not array indices keep
      the order in which the page first saw them. */
  lemma TiesFirstSeen(events: seq<EventItem>, c: int)
    ensures var t := Filter(NotIndexed(), Filter(KeyIs(SliceValue, c), RankedSlices(events)));
            forall i, j :: 0 <= i < j < |t| ==> FirstSeen(SourceOf, events, t[i].name) < FirstSeen(SourceOf, events, t[j].name)
  {
    var all := AllSlices(events);
    var ordered := EntriesOrder(all);
    TiesInEntriesOrder(events, c);
    FilterCommute(NotIndexed(), KeyIs(SliceValue, c), ordered);
    assert Ascending(FirstSeenAt(events), all);
    FilterAscending(FirstSeenAt(events), NotIndexed(), all);
    FilterAscending(FirstSeenAt(events), KeyIs(SliceValue, c), Filter(NotIndexed(), all));
  }

  /** The body of `fetchSourceData` on a loaded inbox: count per source,
      attach percentages, sort by count (ties in `Object.entries` order) and
      keep the first five. */
  function SourceDistribution(events: seq<EventItem>): (r: seq<SourceSlice>)
    ensures |r| <= TopSources
    ensures forall i, j :: 0 <= i < j < |r| ==> r[i].value >= r[j].value
    ensures r <= RankedSlices(events)
    ensures forall c :: Filter(KeyIs(SliceValue, c), r) <= Filter(KeyIs(SliceValue, c), RankedSlices(events))
  {
    forall c ensures Filter(KeyIs(SliceValue, c), Take(RankedSlices(events), TopSources))
                     <= Filter(KeyIs(SliceValue, c), RankedSlices(events)) {
      FilterTakePrefix(KeyIs(SliceValue, c), RankedSlices(events), TopSources);
    }
    Take(RankedSlices(events), TopSources)
  }

  /** Every shown slice is right: pairwise different sources, each with its
      number of events and that number's rounded share of all events. */
  lemma DistributionFaithful(events: seq<EventItem>)
    ensures var r := SourceDistribution(events);
            && (forall i, j :: 0 <= i < j < |r| ==> r[i].name != r[j].name)
            && (forall i :: 0 <= i < |r| ==>
                  && r[i].value == CountOf(events, r[i].name)
                  && r[i].value > 0
                  && 0 <= r[i].percentage <= 100
                  && 200 * r[i].value - Denominator(events) < 2 * r[i].percentage * Denominator(events)
                  && 2 * r[i].percentage * Denominator(events) <= 200 * r[i].value + Denominator(events))
  {
    var ranked := RankedSlices(events);
    var r := SourceDistribution(events);
    RankedNamesDistinct(events);
    forall i | 0 <= i < |r| ensures SliceFor(events, r[i]) {
      assert r[i] == ranked[i];
      assert ranked[i] in ranked;
    }
  }

  /** A source left out of the chart has no more events than any shown one. */
  lemma DistributionDropsSmaller(events: seq<EventItem>, e: EventItem)
    requires e in events
    requires forall k :: 0 <= k < |SourceDistribution(events)| ==> SourceDistribution(events)[k].name != SourceOf(e)
    ensures forall i :: 0 <= i < |SourceDistribution(events)| ==>
              CountOf(events, SourceOf(e)) <= SourceDistribution(events)[i].value
  {
    var ranked := RankedSlices(events);
    var r := SourceDistribution(events);
    var x :| x in ranked && x.name == SourceOf(e);
    assert SliceFor(events, x);
    assert r == Take(ranked, TopSources);
    assert multiset(r)[x] == 0 by {
      assert x !in r;
    }
    assert multiset(ranked)[x] > 0;
    TopKeepsLargest(SliceValue, ranked, TopSources, x);
  }

  /** With fewer than five slices no source is left out. */
  lemma DistributionComplete(events: seq<EventItem>, e: EventItem)
    requires e in events
    requires |SourceDistribution(events)| < TopSources
    ensures exists i :: 0 <= i < |SourceDistribution(events)| && SourceDistribution(events)[i].name == SourceOf(e)
  {
    var r := SourceDistribution(events);
    assert r == RankedSlices(events);
    var x :| x in r && x.name == SourceOf(e);
    var i :| 0 <= i < |r| && r[i] == x;
  }

  /** Every slice names a source some event has. */
  lemma SliceNameSeen(events: seq<EventItem>, x: SourceSlice)
    requires SliceFor(events, x)
    ensures exists e :: e in events && SourceOf(e) == x.name
  {
    var from := Filter(KeyIs(SourceOf, x.name), events);
    assert from[0] in from;
    FilterSpec(KeyIs(SourceOf, x.name), events);
  }

  // ---------------------------------------------------------------------------
  // The page's plain `{}` and the name "__proto__"

  /** The name whose read on a plain `{}` gives the inherited
      `Object.prototype` and whose assignment reaches the inherited
      prototype setter. The value assigned is the string
      "[object Object]1", which the setter ignores because it is neither an
      object nor null. */
  const ProtoName: string := "__proto__"

  function NotProto(): SourceSlice -> bool {
    (s: SourceSlice) => s.name != ProtoName
  }

  /** `fetchSourceData` as written, counting into a plain `{}`: events from
      "__proto__" still count towards the total, but their assignment (of
      the string "[object Object]1") creates no entry, so that source never
      shows. */
  function SourceDistributionAsWritten(events: seq<EventItem>): (r: seq<SourceSlice>)
    ensures |r| <= TopSources
    ensures SortedDesc(SliceValue, r)
    ensures forall i :: 0 <= i < |r| ==> r[i].name != ProtoName && SliceFor(events, r[i])
  {
    var entries := Filter(NotProto(), AllSlices(events));
    var ranked := SortDesc(SliceValue, EntriesOrder(entries));
    TakeSorted(SliceValue, ranked, TopSources);
    AsWrittenMembers(events, Take(ranked, TopSources), entries, ranked);
    Take(ranked, TopSources)
  }

  lemma AsWrittenMembers(events: seq<EventItem>, r: seq<SourceSlice>, entries: seq<SourceSlice>,
                         ranked: seq<SourceSlice>)
    requires entries == Filter(NotProto(), AllSlices(events))
    requires multiset(ranked) == multiset(entries)
    requires multiset(r) <= multiset(ranked)
    ensures forall i :: 0 <= i < |r| ==> r[i].name != ProtoName && SliceFor(events, r[i])
  {
    FilterSpec(NotProto(), AllSlices(events));
    forall i | 0 <= i < |r| ensures r[i].name != ProtoName && SliceFor(events, r[i]) {
      assert r[i] in multiset(r);
      assert r[i] in multiset(entries);
    }
  }

  /** "__proto__" is not an array index, so `Object.entries` would list it
      with the other names in creation order. */
  lemma ProtoNotIndexed()
    ensures ArrayIndex(ProtoName).None?
  {
    assert !IsDigit(ProtoName[0]);
  }

  /** Leaving out "__proto__" before or after `Object.entries` ordering
      gives the same list. */
  lemma EntriesOrderWithoutProto(all: seq<SourceSlice>)
    ensures EntriesOrder(Filter(NotProto(), all)) == Filter(NotProto(), EntriesOrder(all))
  {
    var indexed := Filter(IsIndexed(), all);
    ProtoNotIndexed();
    FilterKeepsAll(NotProto(), indexed);
    FilterCommute(IsIndexed(), NotProto(), all);
    FilterCommute(NotIndexed(), NotProto(), all);
    FilterSortDesc(IndexKey, NotProto(), indexed);
    FilterAppend(NotProto(), SortDesc(IndexKey, indexed), Filter(NotIndexed(), all));
  }

  /** The page's chart is the corrected ranking with "__proto__" struck out,
      cut to the first five: the other sources keep their counts, their
      percentages and their order. */
  lemma AsWrittenIsFilteredRanking(events: seq<EventItem>)
    ensures SourceDistributionAsWritten(events) == Take(Filter(NotProto(), RankedSlices(events)), TopSources)
  {
    var all := AllSlices(events);
    EntriesOrderWithoutProto(all);
    FilterSortDesc(SliceValue, NotProto(), EntriesOrder(all));
  }

  /** On the page, a source other than "__proto__" that is left out has no
      more events than any shown one. */
  lemma AsWrittenDropsSmaller(events: seq<EventItem>, e: EventItem)
    requires e in events
    requires SourceOf(e) != ProtoName
    requires forall k :: 0 <= k < |SourceDistributionAsWritten(events)| ==>
               SourceDistributionAsWritten(events)[k].name != SourceOf(e)
    ensures forall i :: 0 <= i < |SourceDistributionAsWritten(events)| ==>
              CountOf(events, SourceOf(e)) <= SourceDistributionAsWritten(events)[i].value
  {
    var kept := Filter(NotProto(), RankedSlices(events));
    AsWrittenIsFilteredRanking(events);
    FilterSorted(SliceValue, NotProto(), RankedSlices(events));
    var x := KeptSlice(events, e);
    LeftOutSmaller(kept, x);
  }

  /** The slice of a source other than "__proto__" among the kept ones. */
  lemma KeptSlice(events: seq<EventItem>, e: EventItem) returns (x: SourceSlice)
    requires e in events
    requires SourceOf(e) != ProtoName
    ensures x in Filter(NotProto(), RankedSlices(events))
    ensures x.name == SourceOf(e) && x.value == CountOf(events, SourceOf(e))
  {
    var ranked := RankedSlices(events);
    x :| x in ranked && x.name == SourceOf(e);
    assert SliceFor(events, x);
    FilterSpec(NotProto(), ranked);
  }

  /** A slice of a sorted list with no name among the first five has no
      larger value than any of them. */
  lemma LeftOutSmaller(kept: seq<SourceSlice>, x: SourceSlice)
    requires SortedDesc(SliceValue, kept)
    requires x in kept
    requires forall k :: 0 <= k < |Take(kept, TopSources)| ==> Take(kept, TopSources)[k].name != x.name
    ensures forall i :: 0 <= i < |Take(kept, TopSources)| ==> x.value <= Take(kept, TopSources)[i].value
  {
    var r := Take(kept, TopSources);
    assert x !in r;
    assert multiset(kept)[x] > 0;
    TopKeepsLargest(SliceValue, kept, TopSources, x);
  }

  /** Without a "__proto__" source the page's chart is the corrected one. */
  lemma AsWrittenAgreesWithoutProto(events: seq<EventItem>)
    requires forall e :: e in events ==> SourceOf(e) != ProtoName
    ensures SourceDistributionAsWritten(events) == SourceDistribution(events)
  {
    var all := AllSlices(events);
    forall i | 0 <= i < |all| ensures NotProto()(all[i]) {
      assert all[i] in all;
      SliceNameSeen(events, all[i]);
    }
    FilterKeepsAll(NotProto(), all);
  }

  /** Events from "__proto__" alone: the page's chart is empty, while the
      corrected chart shows that source with all of the events. */
  lemma ProtoSourceDropped(events: seq<EventItem>)
    requires |events| > 0
    requires forall e :: e in events ==> e.source == Some(ProtoName)
    ensures SourceDistributionAsWritten(events) == []
    ensures SourceDistribution(events) == [SourceSlice(ProtoName, |events|, 100)]
  {
    var all := AllSlices(events);
    forall i | 0 <= i < |all| ensures !NotProto()(all[i]) {
      assert all[i] in all;
      SliceNameSeen(events, all[i]);
    }
    FilterDropsAll(NotProto(), all);
    assert EntriesOrder([]) == [];
    ProtoOnlySlice(events);
  }

  /** With every event from "__proto__" the corrected chart has one full slice. */
  lemma ProtoOnlySlice(events: seq<EventItem>)
    requires |events| > 0
    requires forall e :: e in events ==> e.source == Some(ProtoName)
    ensures SourceDistribution(events) == [SourceSlice(ProtoName, |events|, 100)]
  {
    OneProtoSlice(events);
    AllIsHundred(|events|);
  }

  /** With every event from "__proto__" there is exactly one entry. */
  lemma OneProtoSlice(events: seq<EventItem>)
    requires |events| > 0
    requires forall e :: e in events ==> e.source == Some(ProtoName)
    ensures RankedSlices(events) == [SourceSlice(ProtoName, |events|, RoundedPercent(|events|, |events|))]
  {
    var ranked := RankedSlices(events);
    var v := SourceSlice(ProtoName, |events|, RoundedPercent(|events|, |events|));
    forall x | x in ranked ensures x == v {
      ProtoSliceIs(events, x);
    }
    assert events[0] in events;
    var x :| x in ranked && x.name == SourceOf(events[0]);
    OnlyCopy(ranked, v);
  }

  /** The one slice there can be when every event is from "__proto__". */
  lemma ProtoSliceIs(events: seq<EventItem>, x: SourceSlice)
    requires forall e :: e in events ==> e.source == Some(ProtoName)
    requires SliceFor(events, x)
    ensures x == SourceSlice(ProtoName, |events|, RoundedPercent(|events|, |events|))
  {
    SliceNameSeen(events, x);
    FilterKeepsAll(KeyIs(SourceOf, ProtoName), events);
  }

  /** A sequence without repeats whose only member is `v` is `[v]`. */
  lemma OnlyCopy(s: seq<SourceSlice>, v: SourceSlice)
    requires v in s
    requires forall x :: x in s ==> x == v
    requires forall x :: multiset(s)[x] <= 1
    ensures s == [v]
  {
    forall i | 0 <= i < |s| ensures s[i] == v {
      assert s[i] in s;
    }
    AllCopies(s, v);
  }

  /** An empty inbox gives an empty chart. */
  lemma EmptyInboxNoSlices()
    ensures SourceDistribution([]) == []
  {
    assert SourceCounts([]) == [];
  }

  /** The chart asks for up to 100 inbox events. */
  const SourcesQuery: InboxParams := InboxParams(Some(100), None, None, None)

  /** The chart's request is a GET of `/v1/events/inbox?limit=100`. */
  lemma SourcesRequest(base: string)
    ensures GetInboxRequest(base, Some(SourcesQuery)).url == base + "/v1/events/inbox?limit=" + IntToString(100)
    ensures IntToString(100) == "100"
    ensures GetInboxRequest(base, Some(SourcesQuery)).verb == Get
  {
    LimitOnlyRequest(base, 100);
    SmallNumerals();
  }

  /** `fetchSourceData`: a loaded inbox gives its distribution, a failed
      load an empty chart. */
  function FetchSourceData(reply: Result<InboxResponse, ApiFailure>): (r: seq<SourceSlice>)
    ensures reply.Err? ==> r == []
    ensures reply.Ok? ==> r == SourceDistribution(reply.value.events)
  {
    match reply
    case Ok(inbox) => SourceDistribution(inbox.events)
    case Err(_) => []
  }
}

/**
 * The events section: classification of events into present, upcoming and
 * past against the current instant, the present-upcoming-past display
 * order, and the "days left to register" figure handed to each card.
 * Instants are integer milliseconds since the epoch; `now` is a parameter.
 */
module SectionCardEvents {
  import opened Wrappers
  import opened Seqs

  /** Milliseconds in a day, `1000 * 60 * 60 * 24`. */
  const MillisPerDay: int := 86400000

  datatype Event = Event(
    id: string,
    title: string,
    description: string,
    startTime: int,
    endTime: int,
    registrationEnd: Option<int>,
    category: seq<string>,
    tags: seq<string>,
    thumbnailUrl: Option<string>,
    registrationUserCount: Option<int>)

  predicate IsPresent(e: Event, now: int) { e.startTime <= now && e.endTime >= now }
  predicate IsUpcoming(e: Event, now: int) { e.startTime > now }
  predicate IsPast(e: Event, now: int) { e.endTime < now }

  function PresentAt(now: int): Event -> bool { e => IsPresent(e, now) }
  function UpcomingAt(now: int): Event -> bool { e => IsUpcoming(e, now) }
  function PastAt(now: int): Event -> bool { e => IsPast(e, now) }

  /** The window invariant the backend is trusted to keep; nothing checks it here. */
  predicate WellFormed(events: seq<Event>)
  {
    forall i :: 0 <= i < |events| ==> events[i].startTime <= events[i].endTime
  }

  datatype Buckets = Buckets(present: seq<Event>, upcoming: seq<Event>, past: seq<Event>)

  /** `categorizeEvents`: three independent filters of the same list. */
  function Categorize(events: seq<Event>, now: int): (b: Buckets)
    ensures forall e :: e in b.present <==> e in events && IsPresent(e, now)
    ensures forall e :: e in b.upcoming <==> e in events && IsUpcoming(e, now)
    ensures forall e :: e in b.past <==> e in events && IsPast(e, now)
  {
    var b := Buckets(Filter(events, PresentAt(now)), Filter(events, UpcomingAt(now)), Filter(events, PastAt(now)));
    assert forall i :: 0 <= i < |events| ==>
      (PresentAt(now)(events[i]) == IsPresent(events[i], now) &&
       UpcomingAt(now)(events[i]) == IsUpcoming(events[i], now) &&
       PastAt(now)(events[i]) == IsPast(events[i], now));
    b
  }

  /** `orderedEvents = [...present, ...upcoming, ...past]`. */
  function OrderedEvents(events: seq<Event>, now: int): (r: seq<Event>)
    ensures |r| <= 3 * |events|
    ensures forall e :: e in r <==> e in events && (IsPresent(e, now) || IsUpcoming(e, now) || IsPast(e, now))
  {
    var b := Categorize(events, now);
    b.present + b.upcoming + b.past
  }

  /** 0 for present, 1 for upcoming, 2 for past. */
  function StatusRank(e: Event, now: int): nat
  {
    if IsPresent(e, now) then 0 else if IsUpcoming(e, now) then 1 else 2
  }

  /** With well-formed windows every event is in exactly one bucket. */
  lemma ExactlyOneBucket(events: seq<Event>, now: int, e: Event)
    requires WellFormed(events)
    requires e in events
    ensures IsPresent(e, now) || IsUpcoming(e, now) || IsPast(e, now)
    ensures !(IsPresent(e, now) && IsUpcoming(e, now))
    ensures !(IsPresent(e, now) && IsPast(e, now))
    ensures !(IsUpcoming(e, now) && IsPast(e, now))
  {
    var k :| 0 <= k < |events| && events[k] == e;
  }

  /**
   * Partition: with well-formed windows the ordered list is a permutation of
   * the input, so it has the same length.
   */
  lemma OrderedIsPermutation(events: seq<Event>, now: int)
    requires WellFormed(events)
    ensures multiset(OrderedEvents(events, now)) == multiset(events)
    ensures |OrderedEvents(events, now)| == |events|
  {
    forall e
      ensures multiset(OrderedEvents(events, now))[e] == multiset(events)[e]
    {
      SameMultiplicity(events, now, e);
    }
    assert multiset(OrderedEvents(events, now)) == multiset(events);
    assert |multiset(OrderedEvents(events, now))| == |multiset(events)|;
  }

  /** Each event occurs in the ordered list as often as in the input. */
  lemma SameMultiplicity(events: seq<Event>, now: int, e: Event)
    requires WellFormed(events)
    ensures multiset(OrderedEvents(events, now))[e] == multiset(events)[e]
  {
    var b := Categorize(events, now);
    assert OrderedEvents(events, now) == b.present + b.upcoming + b.past;
    FilterMultiplicity(events, PresentAt(now), e);
    FilterMultiplicity(events, UpcomingAt(now), e);
    FilterMultiplicity(events, PastAt(now), e);
    if e in events {
      ExactlyOneBucket(events, now, e);
    }
  }

  /**
   * Without the window invariant an event can be counted twice: one whose
   * start lies after `now` and whose end lies before it is both upcoming and past.
   */
  lemma MalformedEventListedTwice()
    ensures var e := Event("x", "", "", 10, 0, None, [], [], None, None);
      OrderedEvents([e], 5) == [e, e]
  {
    var e := Event("x", "", "", 10, 0, None, [], [], None, None);
    var b := Categorize([e], 5);
    assert e !in b.present;
    assert b.present == [] && |b.upcoming| <= 1 && |b.past| <= 1;
    assert e in b.upcoming && e in b.past;
  }

  /**
   * What each bucket's events satisfy, by position: present events are
   * present; upcoming ones are not present; past ones are neither present
   * nor, with well-formed windows, upcoming.
   */
  lemma BucketFacts(events: seq<Event>, now: int)
    ensures var b := Categorize(events, now);
      (forall i :: 0 <= i < |b.present| ==> IsPresent(b.present[i], now)) &&
      (forall i :: 0 <= i < |b.upcoming| ==> IsUpcoming(b.upcoming[i], now) && !IsPresent(b.upcoming[i], now)) &&
      (forall i :: 0 <= i < |b.past| ==> IsPast(b.past[i], now) && !IsPresent(b.past[i], now)) &&
      (WellFormed(events) ==> forall i :: 0 <= i < |b.past| ==> !IsUpcoming(b.past[i], now))
  {
    var b := Categorize(events, now);
    if WellFormed(events) {
      forall i | 0 <= i < |b.past| ensures !IsUpcoming(b.past[i], now) {
        assert b.past[i] in b.past;
        var k :| 0 <= k < |events| && events[k] == b.past[i];
      }
    }
  }

  /** The rank of the event at position `i` of the ordered list is that of the bucket the position falls in. */
  lemma RankAt(events: seq<Event>, now: int, i: nat)
    requires WellFormed(events)
    requires i < |OrderedEvents(events, now)|
    ensures var b := Categorize(events, now);
      StatusRank(OrderedEvents(events, now)[i], now)
        == if i < |b.present| then 0 else if i < |b.present| + |b.upcoming| then 1 else 2
  {
    var b := Categorize(events, now);
    var r := OrderedEvents(events, now);
    BucketFacts(events, now);
    if i < |b.present| {
      assert r[i] == b.present[i];
    } else if i < |b.present| + |b.upcoming| {
      assert r[i] == b.upcoming[i - |b.present|];
    } else {
      assert r[i] == b.past[i - |b.present| - |b.upcoming|];
    }
  }

  /** Bucket order: present events come first, then upcoming, then past. */
  lemma OrderedByStatus(events: seq<Event>, now: int)
    requires WellFormed(events)
    ensures var r := OrderedEvents(events, now);
      forall i, j :: 0 <= i < j < |r| ==> StatusRank(r[i], now) <= StatusRank(r[j], now)
  {
    var r := OrderedEvents(events, now);
    forall i, j | 0 <= i < j < |r| ensures StatusRank(r[i], now) <= StatusRank(r[j], now) {
      RankAt(events, now, i);
      RankAt(events, now, j);
    }
  }

  lemma FilterThree(p: seq<Event>, u: seq<Event>, q: seq<Event>, f: Event -> bool)
    ensures Filter(p + u + q, f) == Filter(p, f) + Filter(u, f) + Filter(q, f)
  {
    FilterConcat(p + u, q, f);
    FilterConcat(p, u, f);
  }

  /**
   * Within a bucket the input order is kept: restricted to one bucket, the
   * ordered list is exactly the input's events of that bucket, in input order.
   */
  lemma OrderedKeepsInputOrder(events: seq<Event>, now: int)
    requires WellFormed(events)
    ensures Filter(OrderedEvents(events, now), PresentAt(now)) == Filter(events, PresentAt(now))
    ensures Filter(OrderedEvents(events, now), UpcomingAt(now)) == Filter(events, UpcomingAt(now))
    ensures Filter(OrderedEvents(events, now), PastAt(now)) == Filter(events, PastAt(now))
  {
    PresentKept(events, now);
    UpcomingKept(events, now);
    PastKept(events, now);
  }

  lemma PresentKept(events: seq<Event>, now: int)
    ensures Filter(OrderedEvents(events, now), PresentAt(now)) == Filter(events, PresentAt(now))
  {
    var b := Categorize(events, now);
    var f := PresentAt(now);
    BucketFacts(events, now);
    FilterThree(b.present, b.upcoming, b.past, f);
    FilterAll(b.present, f);
    FilterNone(b.upcoming, f);
    FilterNone(b.past, f);
  }

  lemma UpcomingKept(events: seq<Event>, now: int)
    requires WellFormed(events)
    ensures Filter(OrderedEvents(events, now), UpcomingAt(now)) == Filter(events, UpcomingAt(now))
  {
    var b := Categorize(events, now);
    var f := UpcomingAt(now);
    BucketFacts(events, now);
    FilterThree(b.present, b.upcoming, b.past, f);
    FilterNone(b.present, f);
    FilterAll(b.upcoming, f);
    FilterNone(b.past, f);
  }

  lemma PastKept(events: seq<Event>, now: int)
    requires WellFormed(events)
    ensures Filter(OrderedEvents(events, now), PastAt(now)) == Filter(events, PastAt(now))
  {
    var b := Categorize(events, now);
    var f := PastAt(now);
    BucketFacts(events, now);
    FilterThree(b.present, b.upcoming, b.past, f);
    FilterNone(b.present, f);
    FilterNone(b.upcoming, f);
    FilterAll(b.past, f);
  }

  /** The two-event example: one event running now, one next month. */
  lemma TwoEventExample()
    ensures var jan := Event("1", "", "", 1735689600000, 1736035200000, None, [], ["A"], None, None);
            var feb := Event("2", "", "", 1738368000000, 1738713600000, None, [], ["B"], None, None);
            var b := Categorize([jan, feb], 1735862400000);
            b.present == [jan] && b.upcoming == [feb] && b.past == []
  {
    var jan := Event("1", "", "", 1735689600000, 1736035200000, None, [], ["A"], None, None);
    var feb := Event("2", "", "", 1738368000000, 1738713600000, None, [], ["B"], None, None);
    var now := 1735862400000;
    assert [jan, feb][1..] == [feb];
    assert [feb][1..] == [];
    assert Filter([feb], PresentAt(now)) == [];
    assert Filter([feb], UpcomingAt(now)) == [feb];
    assert Filter([feb], PastAt(now)) == [];
  }

  /** `Math.ceil(diff / MillisPerDay)` for an integer `diff`. */
  function CeilDays(diff: int): (d: int)
    ensures (d - 1) * MillisPerDay < diff <= d * MillisPerDay
  {
    -((-diff) / MillisPerDay)
  }

  /**
   * The `durationDays` handed to each card: the whole days, rounded up, until
   * registration closes, never negative, and 0 when there is no closing instant.
   */
  function DaysLeft(registrationEnd: Option<int>, now: int): (d: nat)
    ensures registrationEnd.None? ==> d == 0
    ensures registrationEnd.Some? ==> (d > 0 <==> registrationEnd.value > now)
    ensures registrationEnd.Some? && d > 0 ==>
      (d - 1) * MillisPerDay < registrationEnd.value - now <= d * MillisPerDay
  {
    match registrationEnd
    case None => 0
    case Some(end) =>
      var c := CeilDays(end - now);
      if c > 0 then c else 0
  }
}

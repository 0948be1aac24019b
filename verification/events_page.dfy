/**
 * The weekend-events page: a list of activities held as page state, first
 * sorted by interest, grown at the front by "add activity", and re-sorted
 * after each "join".
 */
module EventsPage {
  import opened Wrappers
  import opened Sorting
  import opened Text

  datatype Activity = Activity(
    id: string,
    title: string,
    date: string,
    durationDays: int,
    category: string,
    priceGBP: int,
    interestedCount: int,
    thumbnailUrl: Option<string>,
    tags: Option<seq<string>>)

  const InitialActivities: seq<Activity> := [
    Activity("1", "Ping Pong", "2025-02-12", 5, "Rebound", 250, 120, None, Some(["Indoor", "Fun"])),
    Activity("2", "Zombie chase", "2025-02-12", 5, "Zombie", 250, 85, None, Some(["Outdoor", "Adventure"])),
    Activity("3", "Night Run", "2025-03-01", 2, "Fitness", 180, 95, None, Some(["Health", "Night"]))
  ]

  function Interest(a: Activity): int { a.interestedCount }

  /** The activity "add" puts in front when the list has `count` entries; `now` is its ISO date. */
  function NewActivity(count: nat, now: string): (a: Activity)
    ensures forall i :: 0 <= i < |a.id| ==> IsDigit(a.id[i])
    ensures ParseNat(a.id) == count + 1
    ensures a.id == NatToString(count + 1)
    ensures a.interestedCount == 0 && a.tags == Some(["New"])
  {
    var nextId := NatToString(count + 1);
    ParseNatToString(count + 1);
    Activity(nextId, "New Activity " + nextId, now, 1, "General", 100, 0, None, Some(["New"]))
  }

  /** The `map` step of `onJoin`: every activity with that id gets one more interested. */
  function Bump(activities: seq<Activity>, id: string): (r: seq<Activity>)
    ensures |r| == |activities|
    ensures forall i :: 0 <= i < |r| ==> r[i].id == activities[i].id
    ensures forall i :: 0 <= i < |r| ==> r[i].interestedCount >= activities[i].interestedCount
  {
    seq(|activities|, i requires 0 <= i < |activities| =>
      if activities[i].id == id
      then activities[i].(interestedCount := activities[i].interestedCount + 1)
      else activities[i])
  }

  /** Only the matching activities change, and only in `interestedCount`, by exactly 1. */
  lemma BumpChangesOnlyTarget(activities: seq<Activity>, id: string, i: nat)
    requires i < |activities|
    ensures var a, b := activities[i], Bump(activities, id)[i];
      b.(interestedCount := a.interestedCount) == a &&
      b.interestedCount == a.interestedCount + (if a.id == id then 1 else 0)
  {
  }

  /** An id that no activity has changes nothing. */
  lemma BumpUnknownId(activities: seq<Activity>, id: string)
    requires forall i :: 0 <= i < |activities| ==> activities[i].id != id
    ensures Bump(activities, id) == activities
  {
  }

  /** `id` is the decimal rendering of a number from 1 to `n`. */
  predicate NumberedWithin(id: string, n: nat)
  {
    (forall k :: 0 <= k < |id| ==> IsDigit(id[k])) && 1 <= ParseNat(id) <= n
  }

  /** Every id is the decimal rendering of a number from 1 to the list's length. */
  predicate NumberedUpTo(activities: seq<Activity>)
  {
    forall i :: 0 <= i < |activities| ==> NumberedWithin(activities[i].id, |activities|)
  }

  /**
   * While ids are numbered 1..n, the id "add" picks is new, and the list
   * stays numbered 1..n+1.
   */
  lemma AddKeepsIdsFresh(activities: seq<Activity>, now: string)
    requires NumberedUpTo(activities)
    ensures forall i :: 0 <= i < |activities| ==> activities[i].id != NewActivity(|activities|, now).id
    ensures NumberedUpTo([NewActivity(|activities|, now)] + activities)
  {
    var next := [NewActivity(|activities|, now)] + activities;
    forall i | 0 <= i < |next|
      ensures NumberedWithin(next[i].id, |next|)
    {
      if i > 0 { assert next[i] == activities[i - 1]; }
    }
  }

  /** Joining keeps the numbering: the ids are only reordered. */
  lemma JoinKeepsNumbering(activities: seq<Activity>, id: string)
    requires NumberedUpTo(activities)
    ensures NumberedUpTo(SortDesc(Bump(activities, id), Interest))
  {
    var b := Bump(activities, id);
    var r := SortDesc(b, Interest);
    assert forall j :: 0 <= j < |b| ==> b[j].id == activities[j].id;
    forall i | 0 <= i < |r|
      ensures NumberedWithin(r[i].id, |r|)
    {
      assert r[i] in multiset(b);
      var j :| 0 <= j < |b| && b[j] == r[i];
      assert NumberedWithin(activities[j].id, |activities|);
    }
  }

  class ActivityBoard {
    var activities: seq<Activity>

    /** The initial state: the given activities sorted by interest, highest first. */
    constructor (initial: seq<Activity>)
      ensures activities == SortDesc(initial, Interest)
    {
      activities := SortDesc(initial, Interest);
    }

    /** `firstActivityDate`: the date of the first listed activity, if any. */
    function FirstActivityDate(): (d: Option<string>)
      reads this
      ensures d.None? <==> activities == []
      ensures d.Some? ==> d.value == activities[0].date
    {
      if activities == [] then None else Some(activities[0].date)
    }

    /** `handleAddActivity`: one new activity in front, the old list behind it unchanged. */
    method AddActivity(now: string)
      modifies this
      ensures activities == [NewActivity(|old(activities)|, now)] + old(activities)
      ensures |activities| == |old(activities)| + 1 && activities[1..] == old(activities)
    {
      activities := [NewActivity(|activities|, now)] + activities;
    }

    /** `onJoin(id)`: bump the matching activity, then re-sort by interest. */
    method OnJoin(id: string)
      modifies this
      ensures activities == SortDesc(Bump(old(activities), id), Interest)
      ensures multiset(activities) == multiset(Bump(old(activities), id))
      ensures |activities| == |old(activities)|
      ensures SortedDesc(activities, Interest)
    {
      activities := SortDesc(Bump(activities, id), Interest);
    }
  }

  /** The page's own list is numbered 1..3. */
  lemma InitialActivitiesNumbered()
    ensures NumberedUpTo(InitialActivities)
  {
    assert InitialActivities[0].id == NatToString(1);
    assert InitialActivities[1].id == NatToString(2);
    assert InitialActivities[2].id == NatToString(3);
    ParseNatToString(1);
    ParseNatToString(2);
    ParseNatToString(3);
  }

  /** The page opens with Ping Pong (120), Night Run (95), Zombie chase (85). */
  lemma InitialOrder()
    ensures SortDesc(InitialActivities, Interest)
         == [InitialActivities[0], InitialActivities[2], InitialActivities[1]]
  {
    var a := InitialActivities;
    assert a == [a[0], a[1], a[2]];
    SortThree(a[0], a[1], a[2], Interest);
  }
}

/**
 * The leaderboard page: search and points filters over the roster, the
 * points-descending listing, podium badges, the bar scale `maxPoints`, the
 * "next rank in" gap, and the "Filter 3k+" toggle.
 */
module Leaderboard {
  import opened Seqs
  import opened Sorting
  import opened Text

  datatype Player = Player(id: string, name: string, username: string, avatarUrl: string, points: int)

  /** The roster the page lists. */
  const InitialPlayers: seq<Player> := [
    Player("1", "Aarav Shah", "aarav", "", 4120),
    Player("2", "Mia Chen", "miac", "", 3985),
    Player("3", "Liam Patel", "liamp", "", 3720),
    Player("4", "Zara Khan", "zarak", "", 3350),
    Player("5", "Noah Singh", "noah", "", 3210),
    Player("6", "Olivia Das", "olivia", "", 2975)
  ]

  /** The points threshold the toggle switches on. */
  const ThresholdPoints: int := 3000

  /** Extra points added to the leader's score for the "next rank" figure. */
  const RankHeadroom: int := 500

  function Points(p: Player): int { p.points }

  /** Case-insensitive search on name or username. */
  predicate MatchesQuery(p: Player, query: string)
    ensures query == [] ==> MatchesQuery(p, query)
    ensures MatchesQuery(p, query) ==> |query| <= |p.name| || |query| <= |p.username|
  {
    ContainsEmpty(ToLower(p.name));
    Contains(ToLower(p.name), ToLower(query)) || Contains(ToLower(p.username), ToLower(query))
  }

  predicate Listed(p: Player, query: string, minPoints: int)
  {
    MatchesQuery(p, query) && p.points >= minPoints
  }

  function QueryFilter(query: string): Player -> bool { p => MatchesQuery(p, query) }
  function PointsFilter(minPoints: int): Player -> bool { (p: Player) => p.points >= minPoints }
  function ListedFilter(query: string, minPoints: int): Player -> bool { p => Listed(p, query, minPoints) }

  /** The roster members passing both filters, in roster order. */
  function Eligible(roster: seq<Player>, query: string, minPoints: int): seq<Player>
  {
    Filter(roster, ListedFilter(query, minPoints))
  }

  /**
   * `players`: the roster filtered by the search, then by `minPoints`, then
   * sorted by points, highest first.
   */
  function Players(roster: seq<Player>, query: string, minPoints: int): (r: seq<Player>)
    ensures forall i :: 0 <= i < |r| ==> r[i] in roster && r[i].points >= minPoints && MatchesQuery(r[i], query)
    ensures forall i, j :: 0 <= i < j < |r| ==> r[i].points >= r[j].points
  {
    var matching := Filter(roster, QueryFilter(query));
    var e := Filter(matching, PointsFilter(minPoints));
    var r := SortDesc(e, Points);
    assert forall i :: 0 <= i < |r| ==> r[i] in roster && r[i].points >= minPoints && MatchesQuery(r[i], query) by {
      forall i | 0 <= i < |r| ensures r[i] in roster && r[i].points >= minPoints && MatchesQuery(r[i], query) {
        assert r[i] in multiset(e);
        FilterMember(matching, PointsFilter(minPoints), r[i]);
        FilterMember(roster, QueryFilter(query), r[i]);
      }
    }
    r
  }

  /** The listing is the eligible roster members, each as often as in the roster. */
  lemma PlayersIsPermutationOfEligible(roster: seq<Player>, query: string, minPoints: int)
    ensures multiset(Players(roster, query, minPoints)) == multiset(Eligible(roster, query, minPoints))
  {
    FilterFilter(roster, QueryFilter(query), PointsFilter(minPoints), ListedFilter(query, minPoints));
  }

  /** Completeness: a roster member passing both filters is listed. */
  lemma EligiblePlayerListed(roster: seq<Player>, query: string, minPoints: int, p: Player)
    requires p in roster && Listed(p, query, minPoints)
    ensures p in Players(roster, query, minPoints)
  {
    PlayersIsPermutationOfEligible(roster, query, minPoints);
    var k :| 0 <= k < |roster| && roster[k] == p;
    assert ListedFilter(query, minPoints)(roster[k]);
    assert p in multiset(Eligible(roster, query, minPoints));
  }

  /** Ties keep their roster order, because the sort is stable. */
  lemma PlayersTiesKeepRosterOrder(roster: seq<Player>, query: string, minPoints: int, points: int)
    ensures WithKey(Players(roster, query, minPoints), Points, points)
         == WithKey(Eligible(roster, query, minPoints), Points, points)
  {
    FilterFilter(roster, QueryFilter(query), PointsFilter(minPoints), ListedFilter(query, minPoints));
    SortStable(Eligible(roster, query, minPoints), Points, points);
  }

  /** An empty search keeps everyone who meets the points threshold. */
  lemma EmptyQueryMatchesEveryone(p: Player)
    ensures MatchesQuery(p, "")
  {
    ContainsEmpty(ToLower(p.name));
  }

  /** With an empty search and no threshold, a roster of non-negative scores is listed whole. */
  lemma EmptyQueryListsRoster(roster: seq<Player>)
    requires forall i :: 0 <= i < |roster| ==> roster[i].points >= 0
    ensures multiset(Players(roster, "", 0)) == multiset(roster)
  {
    PlayersIsPermutationOfEligible(roster, "", 0);
    forall p | p in roster ensures ListedFilter("", 0)(p) {
      EmptyQueryMatchesEveryone(p);
    }
    FilterAll(roster, ListedFilter("", 0));
  }

  /** With an empty search and no threshold, a roster already in points order is listed as it is. */
  lemma SortedRosterListedAsIs(roster: seq<Player>)
    requires forall i :: 0 <= i < |roster| ==> roster[i].points >= 0
    requires SortedDesc(roster, Points)
    ensures Players(roster, "", 0) == roster
  {
    assert forall i :: 0 <= i < |roster| ==> QueryFilter("")(roster[i]);
    FilterAll(roster, QueryFilter(""));
    assert forall i :: 0 <= i < |roster| ==> PointsFilter(0)(roster[i]);
    FilterAll(roster, PointsFilter(0));
    SortSortedUnchanged(roster, Points);
  }

  /** The page opens on the whole roster, which is already in points order. */
  lemma InitialListing()
    ensures Players(InitialPlayers, "", 0) == InitialPlayers
  {
    var points := seq(|InitialPlayers|, i requires 0 <= i < |InitialPlayers| => InitialPlayers[i].points);
    assert points == [4120, 3985, 3720, 3350, 3210, 2975];
    SortedRosterListedAsIs(InitialPlayers);
  }

  /** Searching is case-insensitive: upper- and lower-case queries list the same players. */
  lemma SearchIgnoresQueryCase(p: Player, query: string)
    ensures MatchesQuery(p, ToLower(query)) == MatchesQuery(p, query)
  {
    ToLowerIdempotent(query);
  }

  /** `getBadge(rank).label`. */
  function BadgeLabel(rank: int): (badge: string)
    ensures rank == 1 <==> badge == "Gold"
    ensures rank == 2 <==> badge == "Silver"
    ensures rank == 3 <==> badge == "Bronze"
    ensures badge == "" <==> !(1 <= rank <= 3)
  {
    if rank == 1 then "Gold"
    else if rank == 2 then "Silver"
    else if rank == 3 then "Bronze"
    else ""
  }

  /** The podium: the first three listed players, ranked from 1, with their badges. */
  function Podium(players: seq<Player>): (podium: seq<(Player, string)>)
    ensures |podium| == if |players| < 3 then |players| else 3
    ensures forall i :: 0 <= i < |podium| ==> podium[i].0 == players[i] && podium[i].1 != ""
    ensures forall i, j :: 0 <= i < j < |podium| ==> podium[i].1 != podium[j].1
    ensures forall i :: 0 <= i < |podium| ==> podium[i].1 == BadgeLabel(i + 1)
  {
    var top := if |players| < 3 then players else players[..3];
    seq(|top|, i requires 0 <= i < |top| => (top[i], BadgeLabel(i + 1)))
  }

  /** `maxPoints`: the leader's points, or 1 for an empty listing. */
  function MaxPoints(players: seq<Player>): (m: int)
    ensures players == [] ==> m == 1
    ensures players != [] ==> exists i | 0 <= i < |players| :: players[i].points == m
    ensures SortedDesc(players, Points) ==> forall i :: 0 <= i < |players| ==> players[i].points <= m
  {
    if players == [] then 1 else players[0].points
  }

  /** The leader's points bound everyone listed. */
  lemma MaxPointsIsMaximum(roster: seq<Player>, query: string, minPoints: int)
    ensures var ps := Players(roster, query, minPoints);
      forall i :: 0 <= i < |ps| ==> ps[i].points <= MaxPoints(ps)
  {
  }

  /** The "next rank in" figure: `max(0, maxPoints + 500 - points)`. */
  function NextRankGap(maxPoints: int, points: int): (gap: int)
    ensures gap >= 0
    ensures gap >= maxPoints + RankHeadroom - points
    ensures gap == 0 || gap == maxPoints + RankHeadroom - points
  {
    if maxPoints + RankHeadroom - points > 0 then maxPoints + RankHeadroom - points else 0
  }

  /** For every listed player the gap is at least the headroom of 500. */
  lemma NextRankGapAtLeastHeadroom(roster: seq<Player>, query: string, minPoints: int, i: nat)
    requires i < |Players(roster, query, minPoints)|
    ensures var ps := Players(roster, query, minPoints);
      NextRankGap(MaxPoints(ps), ps[i].points) >= RankHeadroom
  {
    MaxPointsIsMaximum(roster, query, minPoints);
  }

  /** The "Filter 3k+" / "Clear" button: 0 becomes 3000, anything else 0. */
  function ToggleMinPoints(v: int): (r: int)
    ensures r == 0 || r == ThresholdPoints
    ensures (r == ThresholdPoints) <==> (v == 0)
  {
    if v == 0 then ThresholdPoints else 0
  }

  /** Starting from 0, the threshold alternates between 0 and 3000. */
  lemma ToggleAlternates(v: int)
    requires v == 0 || v == ThresholdPoints
    ensures ToggleMinPoints(v) != v
    ensures ToggleMinPoints(ToggleMinPoints(v)) == v
  {
  }
}

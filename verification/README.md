# Sustainovate web front-end — verified model of its client-side logic

Sustainovate's web front-end is a Next.js application whose real work happens
on a backend. What it decides on its own is small and sequential. This project
models that logic in Dafny and proves what each piece promises:

- the events section's present / upcoming / past classification, its display
  order and the "days left to register" figure;
- the leaderboard's search and points filters, its points-descending stable
  sort, podium badges, bar scale and "next rank" gap, and the 3k+ toggle;
- the weekend-events page's activity list: initial sort, "add activity" and "join";
- the `useEvent` hook's membership list and join toggle;
- the team carousel's wrap-around index and slider offset;
- a feed post's like / bookmark / comments state;
- the admin panel's create-event validation, event list edits, tag and category
  parsing and role gate;
- the moderator panel's role change, delete confirmation and user list edits;
- the route guard in `middleware.ts`;
- an event card's chips, duration default, category badge and join callback.

Server replies, the current instant, cookies and answers typed into
`confirm`/`prompt` dialogs are plain parameters. Instants are integer
milliseconds since the epoch. Pure code is modelled as functions and lemmas.
Page state that handlers replace step by step is modelled as classes with
`modifies` clauses: `ActivityBoard`, `EventRegistration`, `TeamSlider`,
`PostCardState`, `AdminEventsPanel` and `ModeratorPanel`.

Files: `wrappers.dfy` (Option), `seqs.dfy` (order-preserving filter),
`sorting.dfy` (stable descending sort by key), `text.dfy` (ASCII lower-case,
`includes`, `split`/`join`, `trim`, decimal rendering), then one file per
source file.

`SectionCardEvents.tsx` only concatenates the three buckets; it does not
sort them by popularity.

## Model

| member | source | states |
|---|---|---|
| `SectionCardEvents.Categorize` | src/components/SectionCardEvents.tsx:25-41 | an event is present iff start ≤ now ≤ end, upcoming iff start > now, past iff end < now |
| `SectionCardEvents.OrderedEvents` | src/components/SectionCardEvents.tsx:43-46 | the ordered list holds exactly the input events that fall in some bucket, and is at most three times as long |
| `SectionCardEvents.ExactlyOneBucket` | src/components/SectionCardEvents.tsx:29-39 | when start ≤ end, every event is in exactly one bucket |
| `SectionCardEvents.OrderedIsPermutation` | src/components/SectionCardEvents.tsx:25-46 | when every event has start ≤ end, the ordered list is a permutation of the input and has the same length |
| `SectionCardEvents.MalformedEventListedTwice` | src/components/SectionCardEvents.tsx:34-39 | an event with start > now > end is listed twice, once as upcoming and once as past |
| `SectionCardEvents.OrderedByStatus` | src/components/SectionCardEvents.tsx:46 | every present event comes before every upcoming one, and every upcoming one before every past one |
| `SectionCardEvents.OrderedKeepsInputOrder` | src/components/SectionCardEvents.tsx:29-46 | restricted to one bucket, the ordered list is exactly that bucket's input events in input order |
| `SectionCardEvents.TwoEventExample` | src/components/SectionCardEvents.tsx:25-41 | with now = 3 Jan 2025, an event running 1–5 Jan is present and one running 1–5 Feb is upcoming |
| `SectionCardEvents.CeilDays` | src/components/SectionCardEvents.tsx:80-84 | the result d is the ceiling of diff / 86400000: (d−1)·86400000 < diff ≤ d·86400000 |
| `SectionCardEvents.DaysLeft` | src/components/SectionCardEvents.tsx:76-87 | 0 without a registration end; otherwise never negative, positive iff the end is after now, and then the rounded-up number of days left |
| `Seqs.Filter` | src/app/admin/page.tsx:161 | the result keeps exactly the elements passing the predicate and is no longer than the input |
| `Seqs.FilterConcat` | src/components/SectionCardEvents.tsx:29-39 | filtering distributes over concatenation, so it keeps relative order |
| `Seqs.FilterMultiplicity` | src/app/leaderboard/page.tsx:41-45 | an element passing the filter keeps its multiplicity; the others are dropped |
| `Seqs.FilterFilter` | src/app/leaderboard/page.tsx:41-45 | two filters in a row equal one filter by their conjunction |
| `Sorting.SortDesc` | src/app/leaderboard/page.tsx:46 | the result is a permutation of the input, non-increasing in the key |
| `Sorting.InsertSorted` | src/app/leaderboard/page.tsx:46 | inserting into a sorted sequence keeps it sorted |
| `Sorting.SortStable` | src/app/leaderboard/page.tsx:46 | the elements with any one key keep their input order, as a stable sort requires |
| `Sorting.SortSortedUnchanged` | src/app/leaderboard/page.tsx:46 | sorting a sequence already non-increasing in the key leaves it unchanged |
| `Leaderboard.Players` | src/app/leaderboard/page.tsx:39-47 | every listed player is in the roster, matches the search and has at least minPoints; the list is non-increasing in points |
| `Leaderboard.PlayersIsPermutationOfEligible` | src/app/leaderboard/page.tsx:39-47 | the listing is a permutation of the roster members that pass both filters |
| `Leaderboard.EligiblePlayerListed` | src/app/leaderboard/page.tsx:41-45 | every roster member that passes both filters is listed |
| `Leaderboard.PlayersTiesKeepRosterOrder` | src/app/leaderboard/page.tsx:46 | players with equal points appear in roster order |
| `Leaderboard.MatchesQuery` | src/app/leaderboard/page.tsx:41-44 | an empty query matches every player; a match needs a name or username at least as long as the query |
| `Leaderboard.EmptyQueryMatchesEveryone` | src/app/leaderboard/page.tsx:41-44 | an empty search matches every player |
| `Leaderboard.EmptyQueryListsRoster` | src/app/leaderboard/page.tsx:39-47 | an empty search with threshold 0 lists the whole roster when no score is negative |
| `Leaderboard.SortedRosterListedAsIs` | src/app/leaderboard/page.tsx:39-47 | with an empty search and threshold 0, a roster already in points order with no negative score is listed exactly as it is |
| `Leaderboard.InitialListing` | src/app/leaderboard/page.tsx:19-47 | the page opens listing its six players in roster order |
| `Leaderboard.SearchIgnoresQueryCase` | src/app/leaderboard/page.tsx:42-43 | a query and its lower-cased form match the same players |
| `Leaderboard.BadgeLabel` | src/app/leaderboard/page.tsx:28-33 | ranks 1, 2 and 3 get "Gold", "Silver" and "Bronze"; every other rank gets the empty label |
| `Leaderboard.Podium` | src/app/leaderboard/page.tsx:83-85 | the podium shows the first min(3, n) listed players in order; place i gets the badge of rank i + 1, so the leader gets Gold, and the badges are distinct and non-empty |
| `Leaderboard.MaxPoints` | src/app/leaderboard/page.tsx:49 | 1 for an empty listing; otherwise the points of a listed player, and at least everyone's points when the listing is sorted |
| `Leaderboard.MaxPointsIsMaximum` | src/app/leaderboard/page.tsx:49 | maxPoints (the head's points, or 1 for an empty list) bounds every listed player's points |
| `Leaderboard.NextRankGap` | src/app/leaderboard/page.tsx:161 | the gap is never negative and is 0 or maxPoints + 500 − points, whichever is larger |
| `Leaderboard.NextRankGapAtLeastHeadroom` | src/app/leaderboard/page.tsx:161 | for every listed player the gap is at least 500 |
| `Leaderboard.ToggleMinPoints` | src/app/leaderboard/page.tsx:71 | the threshold becomes 3000 exactly when it was 0, and 0 otherwise |
| `Leaderboard.ToggleAlternates` | src/app/leaderboard/page.tsx:71 | starting from 0 or 3000, each press changes the threshold and two presses restore it |
| `EventsPage.NewActivity` | src/app/events/page.tsx:58-69 | the new activity's id is the canonical decimal rendering of the old length + 1 (digits, no leading zero) and reads back as that number; it has interestedCount 0 and tags ["New"] |
| `EventsPage.Bump` | src/app/events/page.tsx:79-81 | the join map keeps the length and every id, and never lowers an interestedCount |
| `EventsPage.BumpChangesOnlyTarget` | src/app/events/page.tsx:79-81 | the join map raises only matching activities' interestedCount, by exactly 1, and changes nothing else |
| `EventsPage.BumpUnknownId` | src/app/events/page.tsx:79-81 | an unknown id changes no activity |
| `EventsPage.AddKeepsIdsFresh` | src/app/events/page.tsx:58-71 | while ids are numbered 1..n, the added id differs from every existing one and the list stays numbered 1..n+1 |
| `EventsPage.JoinKeepsNumbering` | src/app/events/page.tsx:77-84 | joining keeps the ids numbered 1..n |
| `EventsPage.InitialActivitiesNumbered` | src/app/events/page.tsx:18-49 | the page's initial activities are numbered 1..3 |
| `EventsPage.InitialOrder` | src/app/events/page.tsx:18-54 | the page opens with Ping Pong, Night Run, Zombie chase (120, 95, 85 interested) |
| `EventsPage.ActivityBoard.constructor` | src/app/events/page.tsx:52-54 | the initial list is the given activities sorted by interestedCount, highest first |
| `EventsPage.ActivityBoard.FirstActivityDate` | src/app/events/page.tsx:56 | absent iff the list is empty, otherwise the first activity's date |
| `EventsPage.ActivityBoard.AddActivity` | src/app/events/page.tsx:58-71 | exactly one new activity is put in front, with the old list unchanged behind it |
| `EventsPage.ActivityBoard.OnJoin` | src/app/events/page.tsx:77-84 | the new list is the bumped list re-sorted: a permutation of it, of the same length, non-increasing in interestedCount |
| `UseEvent.UsersAfter` | src/hooks/useEvent.tsx:28-36 | a success reply yields the server's list, or [] when it sends none; a thrown error, a non-ok status or a body without data leaves the list unchanged |
| `UseEvent.EventRegistration.constructor` | src/hooks/useEvent.tsx:11-12 | users starts as the registrationUsers argument |
| `UseEvent.EventRegistration.ToggleJoin` | src/hooks/useEvent.tsx:17-37 | users becomes the reply's outcome; on failure the isJoined flag and count stay as they were |
| `UseEvent.JoinedAfterSuccess` | src/hooks/useEvent.tsx:14-33 | after a success, the user counts as joined iff in the server's list, and count is that list's length |
| `UseEvent.FailureKeepsMembership` | src/hooks/useEvent.tsx:28-36 | after a failure, joined and count are unchanged |
| `UseEvent.JoinExample` | src/hooks/useEvent.tsx:11-39 | a reply of ["u1", "u2"] for user "u2" gives isJoined true and count 2 |
| `Team.Step` | src/components/Team.tsx:17-27 | the index stays in [0, n−1]; next moves i to i+1 and n−1 to 0; prev moves i to i−1 and 0 to n−1 |
| `Team.StepsUndo` | src/components/Team.tsx:17-27 | prev after next, and next after prev, return the starting index |
| `Team.NextTimesWraps` | src/components/Team.tsx:22-25 | k ≤ n presses of next advance the index by k, wrapping once past the end |
| `Team.FullCycle` | src/components/Team.tsx:22-25 | n presses of next return to the starting index |
| `Team.SliderOffset` | src/components/Team.tsx:55 | the offset is index × 22 rem: a multiple of 22 in [0, 22(n−1)] whose quotient by 22 is the index |
| `Team.SliderFollowsStep` | src/components/Team.tsx:17-55 | "next" shifts the track one card (22 rem) right, and from the last card back to 0; "prev" shifts it one card left, and from the first card to the last |
| `Team.TeamSlider.constructor` | src/components/Team.tsx:15 | the index starts at 0 and is valid |
| `Team.TeamSlider.Slide` | src/components/Team.tsx:17-27 | a slide keeps the index valid and applies one step |
| `Team.PrevFromFirst` | src/components/Team.tsx:5-27 | on the seven-member team, "prev" from the first card moves to index 6, the last member |
| `PostCard.LikeStep` | src/components/post-card.tsx:44-51 | like flips the flag, adding 1 when it was unliked and subtracting 1 when it was liked |
| `PostCard.LikeTwiceRestores` | src/components/post-card.tsx:44-51 | two likes restore both flag and count |
| `PostCard.PostCardState.constructor` | src/components/post-card.tsx:39-42 | the card starts unliked, unbookmarked, comments hidden, with the post's like count |
| `PostCard.PostCardState.HandleLike` | src/components/post-card.tsx:44-51 | keeps likesCount = post likes + (1 if liked), applies one like step and touches nothing else |
| `PostCard.PostCardState.ToggleBookmark` | src/components/post-card.tsx:132 | flips bookmarked only |
| `PostCard.PostCardState.ToggleComments` | src/components/post-card.tsx:120-147 | flips showComments only, from either of its two buttons |
| `PostCard.TogglesAreInvolutions` | src/components/post-card.tsx:44-51 | pressing like, bookmark or comments twice leaves the card as it was |
| `AdminPage.BlankForm` | src/app/admin/page.tsx:127-142 | the reset form has blank fields and lists, mode "online", and the given creator id |
| `AdminPage.MissingRequired` | src/app/admin/page.tsx:107-111 | a form is rejected iff one of the ten required text fields is empty or no domain is chosen |
| `AdminPage.CreatorId` | src/app/admin/page.tsx:136 | the creator is the signed-in user's id, or "" without a user |
| `AdminPage.OptionalFieldsIgnored` | src/app/admin/page.tsx:107-111 | thumbnail, tags and categories do not affect the required-field check |
| `AdminPage.BlankFormRejected` | src/app/admin/page.tsx:107-142 | a form just reset fails the required-field check |
| `AdminPage.RemoveEvent` | src/app/admin/page.tsx:161 | every event with that id is removed and every other is kept |
| `AdminPage.RemoveAbsentEvent` | src/app/admin/page.tsx:161 | deleting an unknown id leaves the list unchanged |
| `AdminPage.RemoveEventKeepsOrder` | src/app/admin/page.tsx:161 | deletion commutes with concatenation, so the remaining events keep their order |
| `AdminPage.ParseList` | src/app/admin/page.tsx:211-212 | entry i is the trim of the i-th comma-separated piece; there is one entry more than there are commas, each trimmed and free of commas |
| `AdminPage.ParseEmptyList` | src/app/admin/page.tsx:211-212 | empty input gives one empty entry |
| `AdminPage.ParseListOfJoin` | src/app/admin/page.tsx:211-212 | re-parsing the comma-joined value shown in the input gives back entries that are trimmed and comma-free |
| `AdminPage.View` | src/app/admin/page.tsx:171-172 | "loading" while either load is pending; otherwise the panel shows iff the user's role is "admin" or "moderator" |
| `AdminPage.AdminEventsPanel.constructor` | src/app/admin/page.tsx:70-102 | state after both loads: the fetched events and a blank form naming the user as creator |
| `AdminPage.AdminEventsPanel.EditTags` | src/app/admin/page.tsx:211 | the tags field becomes the parsed input and nothing else in the form changes |
| `AdminPage.AdminEventsPanel.EditCategories` | src/app/admin/page.tsx:212 | the categories field becomes the parsed input and nothing else in the form changes |
| `AdminPage.AdminEventsPanel.HandleCreate` | src/app/admin/page.tsx:105-149 | sends iff no required field is missing; when the event is created it is appended and the form reset, otherwise list and form are unchanged |
| `AdminPage.AdminEventsPanel.HandleDelete` | src/app/admin/page.tsx:152-169 | sends iff confirmed; when accepted, removes every event with that id; otherwise the list is unchanged |
| `ModeratorPage.ConfirmationBody` | src/app/moderator/page.tsx:62-71 | a dismissed or empty prompt cancels; otherwise exactly one field is set, username for moderators and admins and password for everyone else, holding the typed text |
| `ModeratorPage.SetRole` | src/app/moderator/page.tsx:53 | the list keeps its length and every user's id; users with that id get the new role, every other user is unchanged |
| `ModeratorPage.SetRoleChangesOnlyRole` | src/app/moderator/page.tsx:53 | a role change alters only the role of the users with that id and keeps the length |
| `ModeratorPage.RemoveUser` | src/app/moderator/page.tsx:82 | every user with that id is removed and every other is kept |
| `ModeratorPage.RemoveUserMultiplicity` | src/app/moderator/page.tsx:82 | every other user is kept exactly as many times as listed; users with that id vanish |
| `ModeratorPage.RemoveAbsentUser` | src/app/moderator/page.tsx:82 | deleting an id no user has leaves the list unchanged |
| `ModeratorPage.RemoveUserKeepsOrder` | src/app/moderator/page.tsx:82 | removal commutes with concatenation, so the remaining users keep their order |
| `ModeratorPage.ModeratorPanel.constructor` | src/app/moderator/page.tsx:23-42 | state after both loads: the fetched users and the current user's role |
| `ModeratorPage.ModeratorPanel.HandleRoleChange` | src/app/moderator/page.tsx:45-58 | an accepted reply applies the role change; any other reply leaves users unchanged |
| `ModeratorPage.ModeratorPanel.HandleDelete` | src/app/moderator/page.tsx:61-87 | a cancelled prompt sends nothing; an accepted reply removes the target's id; otherwise users is unchanged |
| `Middleware.Guard` | middleware.ts:5-17 | redirects, always to "/login", iff the path is exactly one of the three protected paths and the uid cookie is absent or empty |
| `Middleware.SignedInPassesThrough` | middleware.ts:12 | a non-empty uid cookie never causes a redirect |
| `Middleware.SubPathNotGuarded` | middleware.ts:9-12 | sub-paths such as "/events/x" pass through, because matching is exact |
| `Middleware.ProtectedPagesRedirect` | middleware.ts:9-14 | each protected page redirects a visitor who has no cookie |
| `Middleware.MatcherIsProtectedSet` | middleware.ts:19-21 | the matcher list and protectedPaths hold the same paths |
| `EventCard.Chips` | src/components/event-card.tsx:37 | chips are the tags when these are present and non-empty; otherwise [category] when it is non-empty, else [] |
| `EventCard.NoChipsIffNothingToShow` | src/components/event-card.tsx:37 | a card has no chips iff it has neither tags nor a category |
| `EventCard.DurationDays` | src/components/event-card.tsx:29 | an absent duration becomes 1; a supplied one, 0 included, is kept |
| `EventCard.ShowsCategoryBadge` | src/components/event-card.tsx:47 | a shown badge means the category is present and is the only chip of a card without tags; no badge means such a card has no chips |
| `EventCard.BadgeMatchesCategoryChip` | src/components/event-card.tsx:47-52 | the category badge shows iff the category is non-empty, which is also when a card without tags gets a category chip |
| `EventCard.JoinClick` | src/components/event-card.tsx:79 | Join calls onJoin with the card's own id, and does nothing without a callback |
| `EventCard.NoTagsNoCategoriesNoChips` | src/components/SectionCardEvents.tsx:88-90 | an event with no tags and no categories, passed through the section's ", " join, shows no chips |
| `Text.Split` | src/app/admin/page.tsx:211-212 | split gives at least one piece and no piece holds the separator |
| `Text.Join` | src/app/admin/page.tsx:211-212 | the join starts with the first piece and contains every piece |
| `Text.SplitCount` | src/app/admin/page.tsx:211 | split yields one piece more than there are separators |
| `Text.JoinSplit` | src/app/admin/page.tsx:211 | joining split pieces with the separator gives back the input |
| `Text.SplitJoin` | src/app/admin/page.tsx:211 | splitting a join of separator-free pieces gives back the pieces |
| `Text.Trim` | src/app/admin/page.tsx:211 | the result is a slice of the input with only whitespace removed at either end, has no whitespace at its ends, and leaves a trimmed string unchanged |
| `Text.NatToString` | src/app/events/page.tsx:59 | the result is non-empty decimal digits with no leading zero |
| `Text.ParseNatToString` | src/app/events/page.tsx:59 | reading back the decimal rendering gives the number |
| `Text.ToLower` | src/app/leaderboard/page.tsx:42-43 | the result has the input's length and each character lower-cased; it holds no upper-case letter |
| `Text.Contains` | src/app/leaderboard/page.tsx:42-43 | a string includes each of its prefixes, the empty string among them, and nothing longer than itself |
| `Text.ToLowerIdempotent` | src/app/leaderboard/page.tsx:42-43 | lower-casing twice is lower-casing once |

## Left out

- Fetching, cookies, toasts, `alert`, `confirm`, `prompt` and `console.error` are left out. Their outcomes are parameters: reply datatypes, the `confirmed` flag, the prompt's `Option<string>`. A reply datatype records how the request ended as the page sees it: a user delete whose 2xx reply has a body that is not JSON throws at `res.json()` before the status is tested, so it is `Threw` and leaves the list unchanged.
- The loads that run when a page mounts, and their race to clear `loading`, are left out. The panel constructors take the state after both loads have answered.
- Date-string parsing, `new Date()` and locale formatting are left out. Instants are integer milliseconds, so an unparseable date (NaN, which falls in no bucket and makes the day count NaN) is not modelled.
- Lower-casing and `trim` cover ASCII only. JavaScript's full Unicode case mapping and whitespace set are not modelled.
- JavaScript numbers are doubles. Points, counts and instants are unbounded integers, with no rounding or overflow.
- The leaderboard progress bar fraction is floating point and is left out. So are `getBadge`'s class names and all other styling, markup and animation.
- The admin form's plain text inputs (title, slug, dates and so on) only copy the typed value into one field. They are not modelled as methods; the tag and category inputs are.
- `EventsPage.ActivityBoard.AddActivity`: the new activity has interestedCount 0 and goes in front, so the list is not sorted again until the next join. The model keeps that behaviour.
- `Team.TeamSlider.constructor` requires a non-empty team. The page's team has seven members, and an empty team, whose "prev" would give index −1, never arises.
- `UseEvent.EventRegistration.IsJoined` and `Count` are direct derivations from `users`; their meaning is stated in `ToggleJoin`, `JoinedAfterSuccess` and `FailureKeepsMembership`.
- The event-list tag/category facet extraction and the tag, category, status and date filter predicate are not part of this model. The page that implements them is not among the modelled files.
- The stale closure in the admin and moderator handlers is not modelled. They filter or append to the list seen at render time, not the latest one. With sequential handlers, as here, the two are the same.

/**
 * An event card's own logic: which chips it shows, the duration default,
 * whether the category badge appears, and what "Join now" does.
 */
module EventCard {
  import opened Wrappers
  import opened Text

  /** `tags && tags.length > 0 ? tags : (category ? [category] : [])`. */
  function Chips(tags: Option<seq<string>>, category: Option<string>): (chips: seq<string>)
    ensures tags.Some? && |tags.value| > 0 ==> chips == tags.value
    ensures !(tags.Some? && |tags.value| > 0) && category.Some? && category.value != "" ==>
      chips == [category.value]
    ensures !(tags.Some? && |tags.value| > 0) && (category.None? || category.value == "") ==> chips == []
  {
    if tags.Some? && |tags.value| > 0 then tags.value
    else if category.Some? && category.value != "" then [category.value]
    else []
  }

  /** A card shows no chips exactly when it has neither tags nor a category. */
  lemma NoChipsIffNothingToShow(tags: Option<seq<string>>, category: Option<string>)
    ensures Chips(tags, category) == [] <==>
      (tags.None? || tags.value == []) && (category.None? || category.value == "")
  {
  }

  /** The `durationDays = 1` default: only an absent value is replaced. */
  function DurationDays(durationDays: Option<int>): (d: int)
    ensures durationDays.None? ==> d == 1
    ensures durationDays.Some? ==> d == durationDays.value
  {
    if durationDays.Some? then durationDays.value else 1
  }

  /** The category badge is shown iff the category is non-empty. */
  predicate ShowsCategoryBadge(category: Option<string>)
    ensures ShowsCategoryBadge(category) ==> category.Some? && Chips(None, category) == [category.value]
    ensures !ShowsCategoryBadge(category) ==> Chips(None, category) == []
  {
    category.Some? && category.value != ""
  }

  /** The badge and the single category chip go together when there are no tags. */
  lemma BadgeMatchesCategoryChip(category: Option<string>)
    ensures ShowsCategoryBadge(category) <==> Chips(None, category) != []
  {
  }

  /** `onJoin?.(id)`: the id handed to the join callback, or nothing when there is none. */
  function JoinClick(id: string, hasOnJoin: bool): (call: Option<string>)
    ensures call.Some? <==> hasOnJoin
    ensures call.Some? ==> call.value == id
  {
    if hasOnJoin then Some(id) else None
  }

  /**
   * The events section passes the event's categories joined with ", ": an
   * event with no tags and no categories shows no chips.
   */
  lemma NoTagsNoCategoriesNoChips()
    ensures Chips(Some([]), Some(Join([], ", "))) == []
  {
  }
}

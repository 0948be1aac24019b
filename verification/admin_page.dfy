/**
 * The admin events panel: the create-event form and its required-field
 * check, the list of events grown by creation and shrunk by deletion, the
 * comma-separated tag and category inputs, and the role gate.
 * Server replies and the answer to the delete confirmation are parameters.
 */
module AdminPage {
  import opened Wrappers
  import opened Seqs
  import opened Text

  datatype EventSummary = EventSummary(id: string, title: string, description: string, startTime: string, endTime: string)

  datatype User = User(id: string, role: string)

  datatype EventForm = EventForm(
    title: string,
    description: string,
    startTime: string,
    endTime: string,
    registrationStart: string,
    registrationEnd: string,
    location: string,
    mode: string,
    createdBy: string,
    slug: string,
    thumbnailUrl: string,
    domains: seq<string>,
    tags: seq<string>,
    categories: seq<string>)

  /** The reply to the create request: a thrown error, a non-2xx status, or the created event. */
  datatype CreateReply = CreateThrew | CreateRejected(message: Option<string>) | Created(event: EventSummary)

  /** The reply to the delete request. */
  datatype DeleteReply = DeleteThrew | DeleteRejected(message: Option<string>) | Deleted

  /** What the panel renders. */
  datatype PanelView = Loading | Hidden | Panel

  /** The form's blank state: empty fields, mode "online", the creator's id. */
  function BlankForm(createdBy: string): (f: EventForm)
    ensures f.mode == "online" && f.createdBy == createdBy
    ensures f.title == f.description == f.slug == f.location == f.thumbnailUrl == ""
    ensures f.startTime == f.endTime == f.registrationStart == f.registrationEnd == ""
    ensures f.domains == f.tags == f.categories == []
  {
    EventForm("", "", "", "", "", "", "", "online", createdBy, "", "", [], [], [])
  }

  /** `user?._id || ""`. */
  function CreatorId(user: Option<User>): (r: string)
    ensures user.Some? ==> r == user.value.id
    ensures user.None? ==> r == ""
  {
    if user.Some? then user.value.id else ""
  }

  /**
   * The required-field check of `handleCreate`: a required text field is
   * empty, or no domain is selected. Thumbnail, tags and categories are optional.
   */
  /** The text fields the form requires, in the order the check tests them. */
  function RequiredTexts(f: EventForm): seq<string>
  {
    [f.title, f.description, f.startTime, f.endTime, f.location, f.mode,
     f.createdBy, f.slug, f.registrationStart, f.registrationEnd]
  }

  predicate MissingRequired(f: EventForm)
    ensures MissingRequired(f) <==>
      (exists i | 0 <= i < |RequiredTexts(f)| :: RequiredTexts(f)[i] == "") || f.domains == []
  {
    var texts := RequiredTexts(f);
    assert texts[0] == f.title && texts[1] == f.description && texts[2] == f.startTime;
    assert texts[3] == f.endTime && texts[4] == f.location && texts[5] == f.mode;
    assert texts[6] == f.createdBy && texts[7] == f.slug;
    assert texts[8] == f.registrationStart && texts[9] == f.registrationEnd;
    f.title == "" || f.description == "" || f.startTime == "" || f.endTime == "" ||
    f.location == "" || f.mode == "" || f.createdBy == "" || f.slug == "" ||
    f.registrationStart == "" || f.registrationEnd == "" || f.domains == []
  }

  /** The optional fields have no say in the check. */
  lemma OptionalFieldsIgnored(f: EventForm, thumbnailUrl: string, tags: seq<string>, categories: seq<string>)
    ensures MissingRequired(f.(thumbnailUrl := thumbnailUrl, tags := tags, categories := categories))
         == MissingRequired(f)
  {
  }

  /** A freshly reset form is always rejected until it is filled in again. */
  lemma BlankFormRejected(createdBy: string)
    ensures MissingRequired(BlankForm(createdBy))
  {
  }

  /** `events.filter(e => e._id !== id)`. */
  function RemoveEvent(events: seq<EventSummary>, id: string): (r: seq<EventSummary>)
    ensures forall e :: e in r <==> e in events && e.id != id
  {
    var r := Filter(events, (e: EventSummary) => e.id != id);
    assert forall i :: 0 <= i < |events| && events[i].id != id ==> events[i] in r;
    r
  }

  /** Deleting an id that no event has leaves the list as it is. */
  lemma RemoveAbsentEvent(events: seq<EventSummary>, id: string)
    requires forall i :: 0 <= i < |events| ==> events[i].id != id
    ensures RemoveEvent(events, id) == events
  {
    FilterAll(events, (e: EventSummary) => e.id != id);
  }

  /** Deleting keeps the remaining events in order: it commutes with concatenation. */
  lemma RemoveEventKeepsOrder(a: seq<EventSummary>, b: seq<EventSummary>, id: string)
    ensures RemoveEvent(a + b, id) == RemoveEvent(a, id) + RemoveEvent(b, id)
  {
    FilterConcat(a, b, (e: EventSummary) => e.id != id);
  }

  /** `value.split(",").map(t => t.trim())`, the tags and categories inputs. */
  function ParseList(text: string): (items: seq<string>)
    ensures |items| == Count(text, ',') + 1
    ensures forall i :: 0 <= i < |items| ==> Trimmed(items[i]) && ',' !in items[i]
    ensures |items| == |Split(text, ',')|
    ensures forall i :: 0 <= i < |items| ==> items[i] == Trim(Split(text, ',')[i])
  {
    var parts := Split(text, ',');
    SplitCount(text, ',');
    var items := seq(|parts|, i requires 0 <= i < |parts| => Trim(parts[i]));
    assert forall i :: 0 <= i < |items| ==> ',' !in items[i] by {
      forall i | 0 <= i < |items| ensures ',' !in items[i] {
        var j, k :| 0 <= j <= k <= |parts[i]| && items[i] == parts[i][j..k];
        assert forall c :: c in items[i] ==> c in parts[i];
      }
    }
    items
  }

  /** An empty input yields one empty entry, not an empty list. */
  lemma ParseEmptyList()
    ensures ParseList("") == [""]
  {
  }

  /**
   * Re-reading the input's displayed value (`items.join(",")`) gives the
   * same entries back, for entries that are already trimmed and comma-free.
   */
  lemma ParseListOfJoin(items: seq<string>)
    requires |items| >= 1
    requires forall i :: 0 <= i < |items| ==> Trimmed(items[i]) && ',' !in items[i]
    ensures ParseList(Join(items, ",")) == items
  {
    SplitJoin(items, ',');
  }

  /** `if (userLoading || loading) ...; if (!user || !["admin", "moderator"].includes(user.role)) return null`. */
  function View(userLoading: bool, loading: bool, user: Option<User>): (v: PanelView)
    ensures v == Loading <==> userLoading || loading
    ensures v == Panel <==> !userLoading && !loading && user.Some? && user.value.role in ["admin", "moderator"]
  {
    if userLoading || loading then Loading
    else if user.None? || user.value.role !in ["admin", "moderator"] then Hidden
    else Panel
  }

  class AdminEventsPanel {
    var events: seq<EventSummary>
    var form: EventForm
    var user: Option<User>

    /** The state once both loads have answered: the fetched events and, if signed in, the user as creator. */
    constructor (events: seq<EventSummary>, user: Option<User>)
      ensures this.events == events && this.user == user
      ensures form == BlankForm(CreatorId(user))
    {
      this.events := events;
      this.user := user;
      form := BlankForm(CreatorId(user));
    }

    /** The tags input's `onChange`. */
    method EditTags(text: string)
      modifies this`form
      ensures form == old(form).(tags := ParseList(text))
    {
      form := form.(tags := ParseList(text));
    }

    /** The categories input's `onChange`. */
    method EditCategories(text: string)
      modifies this`form
      ensures form == old(form).(categories := ParseList(text))
    {
      form := form.(categories := ParseList(text));
    }

    /**
     * `handleCreate`: nothing is sent when a required field is missing; on a
     * created event it is appended and the form reset; on any failure
     * nothing changes.
     */
    method HandleCreate(reply: CreateReply) returns (sent: bool)
      modifies this`events, this`form
      ensures sent == !MissingRequired(old(form))
      ensures sent && reply.Created? ==>
        events == old(events) + [reply.event] && form == BlankForm(CreatorId(user))
      ensures !(sent && reply.Created?) ==> events == old(events) && form == old(form)
    {
      if MissingRequired(form) {
        return false;
      }
      sent := true;
      if reply.Created? {
        events := events + [reply.event];
        form := BlankForm(CreatorId(user));
      }
    }

    /** `handleDelete(id)`: when confirmed and accepted, every event with that id goes. */
    method HandleDelete(id: string, confirmed: bool, reply: DeleteReply) returns (sent: bool)
      modifies this`events
      ensures sent == confirmed
      ensures events == if confirmed && reply.Deleted? then RemoveEvent(old(events), id) else old(events)
    {
      if !confirmed {
        return false;
      }
      sent := true;
      if reply.Deleted? {
        events := RemoveEvent(events, id);
      }
    }
  }
}

/**
 * The community events screen: a calendar whose marked days follow the event
 * list, a searchable list sorted by date or category, and handlers that add an
 * event, flip its reminder or delete it.
 */
module Events {
  import opened Wrappers
  import opened TextUtil
  import Seqs

  datatype Category = Community | Maintenance | Social | Emergency

  /** The key under which a category is stored on an event. */
  function CategoryKey(c: Category): string
  {
    match c
    case Community => "COMMUNITY"
    case Maintenance => "MAINTENANCE"
    case Social => "SOCIAL"
    case Emergency => "EMERGENCY"
  }

  /** The colour of the category in the category table. */
  function CategoryColor(c: Category): string
  {
    match c
    case Community => "#4CAF50"
    case Maintenance => "#2196F3"
    case Social => "#9C27B0"
    case Emergency => "#F44336"
  }

  datatype Event = Event(id: string, date: string, title: string, details: string, category: Category, reminder: bool)

  /** A calendar entry for one day. */
  datatype Mark = Mark(marked: bool, selected: bool, selectedColor: string)

  /** The add-event form. */
  datatype Draft = Draft(title: string, date: string, details: string, category: Category)

  const EmptyDraft := Draft("", "", "", Community)

  datatype SortMode = ByDate | ByCategory

  /** The events the screen loads on mounting. */
  const FetchedEvents: seq<Event> := [
    Event("1", "2024-10-10", "Community Meeting", "Discuss community initiatives.", Community, true),
    Event("2", "2024-10-15", "Maintenance Day", "Regular maintenance of community areas.", Maintenance, false),
    Event("3", "2024-10-31", "Halloween Party", "Fun activities and treats for all ages!", Social, true)
  ]

  // ---- calendar marks --------------------------------------------------

  /** The entry written for an event's day. */
  function MarkFor(e: Event): (m: Mark)
    ensures m.marked && m.selected && m.selectedColor != ""
  {
    Mark(true, true, CategoryColor(e.category))
  }

  /** The days that have at least one event. */
  ghost function Dates(events: seq<Event>): set<string>
  {
    set i | 0 <= i < |events| :: events[i].date
  }

  /** The position of the last event on day `d`. */
  ghost function LastIndexOf(events: seq<Event>, d: string): (k: nat)
    requires exists i :: 0 <= i < |events| && events[i].date == d
    ensures k < |events| && events[k].date == d
    ensures forall j :: k < j < |events| ==> events[j].date != d
  {
    if events[|events| - 1].date == d then |events| - 1
    else
      var i :| 0 <= i < |events| && events[i].date == d;
      assert events[..|events| - 1][i] == events[i];
      LastIndexOf(events[..|events| - 1], d)
  }

  /**
   * `marked` holds one entry per distinct event date, and the entry for a day is
   * the one of the LAST event on that day.
   */
  ghost predicate IsMarkingOf(marked: map<string, Mark>, events: seq<Event>)
  {
    && marked.Keys == Dates(events)
    && forall d :: d in marked ==> marked[d] == MarkFor(events[LastIndexOf(events, d)])
  }

  /** `updateMarkedDates`: one pass over the events, each writing the entry for its day. */
  method BuildMarkedDates(events: seq<Event>) returns (marked: map<string, Mark>)
    ensures IsMarkingOf(marked, events)
  {
    marked := map[];
    for k := 0 to |events|
      invariant IsMarkingOf(marked, events[..k])
    {
      MarkingStep(marked, events, k);
      marked := marked[events[k].date := MarkFor(events[k])];
    }
    assert events[..|events|] == events;
  }

  /** Writing the entry of event `k` extends a marking of the first `k` events to the first `k + 1`. */
  lemma MarkingStep(marked: map<string, Mark>, events: seq<Event>, k: nat)
    requires k < |events| && IsMarkingOf(marked, events[..k])
    ensures IsMarkingOf(marked[events[k].date := MarkFor(events[k])], events[..k + 1])
  {
    var prev, e, es := events[..k], events[k], events[..k + 1];
    assert es == prev + [e];
    DatesStep(prev, e);
    var m := marked[e.date := MarkFor(e)];
    forall d | d in m ensures m[d] == MarkFor(es[LastIndexOf(es, d)]) {
      if d != e.date {
        LastIndexOfStep(prev, e, d);
      }
    }
  }

  lemma DatesStep(prev: seq<Event>, e: Event)
    ensures Dates(prev + [e]) == Dates(prev) + {e.date}
  {
    var es := prev + [e];
    assert es[|prev|] == e;
    forall d | d in Dates(es) ensures d in Dates(prev) + {e.date} {
      var i :| 0 <= i < |es| && es[i].date == d;
      if i < |prev| { assert prev[i] == es[i]; }
    }
    forall d | d in Dates(prev) ensures d in Dates(es) {
      var i :| 0 <= i < |prev| && prev[i].date == d;
      assert es[i] == prev[i];
    }
  }

  lemma LastIndexOfStep(prev: seq<Event>, e: Event, d: string)
    requires d != e.date && exists i :: 0 <= i < |prev| && prev[i].date == d
    ensures exists i :: 0 <= i < |prev + [e]| && (prev + [e])[i].date == d
    ensures LastIndexOf(prev + [e], d) == LastIndexOf(prev, d)
  {
    var es := prev + [e];
    var i :| 0 <= i < |prev| && prev[i].date == d;
    assert es[i] == prev[i];
    assert es[..|es| - 1] == prev;
  }

  /** Every event's day is marked, with `marked` and `selected` set. */
  lemma MarksCoverEveryEvent(marked: map<string, Mark>, events: seq<Event>, i: nat)
    requires IsMarkingOf(marked, events) && i < |events|
    ensures events[i].date in marked
    ensures marked[events[i].date].marked && marked[events[i].date].selected
  {
    assert events[i].date in Dates(events);
  }

  /** The last event of a day decides that day's colour. */
  lemma LastEventOfDayWins(marked: map<string, Mark>, events: seq<Event>, i: nat)
    requires IsMarkingOf(marked, events) && i < |events|
    requires forall j :: i < j < |events| ==> events[j].date != events[i].date
    ensures marked[events[i].date].selectedColor == CategoryColor(events[i].category)
  {
    assert events[i].date in Dates(events);
  }

  // ---- search and sort -------------------------------------------------

  /** The search test: the lower-cased query occurs in the lower-cased title or details. */
  predicate Matches(e: Event, query: string)
  {
    Contains(Lower(e.title), Lower(query)) || Contains(Lower(e.details), Lower(query))
  }

  function Search(events: seq<Event>, query: string): (r: seq<Event>)
    ensures |r| <= |events|
    ensures forall i :: 0 <= i < |r| ==> r[i] in events && Matches(r[i], query)
  {
    Seqs.Filter(events, (e: Event) => Matches(e, query))
  }

  /** The comparator: date order (ISO dates compare as strings), or category key order. */
  predicate Before(mode: SortMode, a: Event, b: Event)
    ensures Before(mode, a, b) ==> a != b
  {
    match mode
    case ByDate => LexLess(a.date, b.date)
    case ByCategory => LexLess(CategoryKey(a.category), CategoryKey(b.category))
  }

  /** `filteredEvents`: the matching events, stably sorted in the current mode. */
  function Filtered(events: seq<Event>, query: string, mode: SortMode): (r: seq<Event>)
    ensures |r| == |Search(events, query)| <= |events|
  {
    Seqs.Sort(Search(events, query), (a, b) => Before(mode, a, b))
  }

  /** An event is listed iff it is in the list and matches the query. */
  lemma SearchMembership(events: seq<Event>, query: string, e: Event)
    ensures e in Search(events, query) <==> e in events && Matches(e, query)
  {
    var r := Search(events, query);
    if e in r {
      var i :| 0 <= i < |r| && r[i] == e;
    }
    if e in events && Matches(e, query) {
      var i :| 0 <= i < |events| && events[i] == e;
    }
  }

  /** Searching keeps the original order: it distributes over concatenation. */
  lemma SearchKeepsOrder(a: seq<Event>, b: seq<Event>, query: string)
    ensures Search(a + b, query) == Search(a, query) + Search(b, query)
  {
    Seqs.FilterConcat(a, b, (e: Event) => Matches(e, query));
  }

  /** An empty query keeps every event. */
  lemma EmptyQueryKeepsAll(events: seq<Event>)
    ensures Search(events, "") == events
  {
    forall i | 0 <= i < |events| ensures Matches(events[i], "") {
      ContainsEmpty(Lower(events[i].title));
    }
    Seqs.FilterKeepsAll(events, (e: Event) => Matches(e, ""));
  }

  lemma BeforeIsStrictWeakOrder(mode: SortMode)
    ensures Seqs.StrictWeakOrder((a, b) => Before(mode, a, b))
  {
    forall x: Event, y: Event ensures Before(mode, x, y) ==> !Before(mode, y, x) {
      LexLessAsymmetric(x.date, y.date);
      LexLessAsymmetric(CategoryKey(x.category), CategoryKey(y.category));
    }
    forall x: Event, y: Event, z: Event | !Before(mode, x, y) && !Before(mode, y, z)
      ensures !Before(mode, x, z)
    {
      if mode == ByDate {
        NotLexLessTransitive(x.date, y.date, z.date);
      } else {
        NotLexLessTransitive(CategoryKey(x.category), CategoryKey(y.category), CategoryKey(z.category));
      }
    }
  }

  /**
   * The listed events are a permutation of the matching ones, ascending by date
   * in date mode and by category key in category mode.
   */
  lemma FilteredIsSortedPermutation(events: seq<Event>, query: string, mode: SortMode)
    ensures multiset(Filtered(events, query, mode)) == multiset(Search(events, query))
    ensures var r := Filtered(events, query, mode);
      forall i, j :: 0 <= i < j < |r| ==> !Before(mode, r[j], r[i])
  {
    Seqs.SortPermutation(Search(events, query), (a, b) => Before(mode, a, b));
    BeforeIsStrictWeakOrder(mode);
    Seqs.SortSorted(Search(events, query), (a, b) => Before(mode, a, b));
  }

  /** The sort button alternates between the two modes. */
  function NextSortMode(mode: SortMode): (r: SortMode)
    ensures r != mode
  {
    if mode == ByDate then ByCategory else ByDate
  }

  // ---- add ---------------------------------------------------------------

  /** The add form is accepted only with a title, a date and details (the category always has a value). */
  predicate DraftComplete(d: Draft)
    ensures DraftComplete(d) ==> d != EmptyDraft
  {
    d.title != "" && d.date != "" && d.details != ""
  }

  function EventFrom(id: string, d: Draft): Event
  {
    Event(id, d.date, d.title, d.details, d.category, false)
  }

  /** `handleAddEvent` as written: the new id is `String(length + 1)`. */
  function AddedAsWritten(events: seq<Event>, d: Draft): (r: Option<seq<Event>>)
    ensures r.None? <==> !DraftComplete(d)
    ensures r.Some? ==> r.value == events + [EventFrom(NatToString(|events| + 1), d)]
  {
    if !DraftComplete(d) then None else Some(events + [EventFrom(NatToString(|events| + 1), d)])
  }

  /** The largest id among the events that are decimal numbers (0 when there is none). */
  function MaxNumericId(events: seq<Event>): (m: nat)
    ensures forall i :: 0 <= i < |events| && IsDigits(events[i].id) ==> DigitsValue(events[i].id) <= m
  {
    if events == [] then 0
    else
      var rest := MaxNumericId(events[..|events| - 1]);
      var last := events[|events| - 1].id;
      if IsDigits(last) && DigitsValue(last) > rest then DigitsValue(last) else rest
  }

  /** The id given to an added event: one more than every numeric id in use. */
  function NextEventId(events: seq<Event>): (id: string)
    ensures forall i :: 0 <= i < |events| ==> events[i].id != id
  {
    var id := NatToString(MaxNumericId(events) + 1);
    DigitsRoundTrip(MaxNumericId(events) + 1);
    id
  }

  /** `handleAddEvent`: an incomplete form changes nothing; otherwise one event is appended. */
  function Added(events: seq<Event>, d: Draft): (r: Option<seq<Event>>)
    ensures r.None? <==> !DraftComplete(d)
    ensures r.Some? ==> |r.value| == |events| + 1 && r.value[..|events|] == events
    ensures r.Some? ==> var e := r.value[|events|];
      e.title == d.title && e.date == d.date && e.details == d.details &&
      e.category == d.category && !e.reminder
  {
    if !DraftComplete(d) then None else Some(events + [EventFrom(NextEventId(events), d)])
  }

  /** Event ids are pairwise distinct. */
  predicate IdsUnique(events: seq<Event>)
  {
    forall i, j :: 0 <= i < j < |events| ==> events[i].id != events[j].id
  }

  /** Adding keeps the ids unique. */
  lemma AddedKeepsIdsUnique(events: seq<Event>, d: Draft)
    requires IdsUnique(events) && DraftComplete(d)
    ensures IdsUnique(Added(events, d).value)
  {
  }

  /** The ids are "1", "2", ..., "n" in list order, as in the loaded list. */
  predicate IdsSequential(events: seq<Event>)
  {
    forall i :: 0 <= i < |events| ==> events[i].id == NatToString(i + 1)
  }

  lemma {:induction false} MaxNumericIdOfSequential(events: seq<Event>)
    requires IdsSequential(events)
    ensures MaxNumericId(events) == |events|
  {
    if events != [] {
      var init := events[..|events| - 1];
      assert IdsSequential(init);
      MaxNumericIdOfSequential(init);
      DigitsRoundTrip(|events|);
    }
  }

  /** While no event has been deleted, the new id is `String(length + 1)`, as the screen computes it. */
  lemma NextIdAgreesWhileSequential(events: seq<Event>, d: Draft)
    requires IdsSequential(events) && DraftComplete(d)
    ensures Added(events, d) == AddedAsWritten(events, d)
    ensures IdsSequential(Added(events, d).value)
  {
    MaxNumericIdOfSequential(events);
  }

  /** The loaded list is numbered "1", "2", "3". */
  lemma FetchedIdsSequential()
    ensures IdsSequential(FetchedEvents) && IdsUnique(FetchedEvents)
  {
    assert NatToString(1) == "1" && NatToString(2) == "2" && NatToString(3) == "3";
  }

  /**
   * With the id computed from the length, deleting event "1" of the loaded list
   * and adding one yields two events with id "3".
   */
  lemma AsWrittenIdCollides(d: Draft)
    requires DraftComplete(d)
    ensures var r := AddedAsWritten(Deleted(FetchedEvents, "1"), d).value;
      |r| == 3 && r[1].id == "3" && r[2].id == "3" && !IdsUnique(r)
  {
    var left := Deleted(FetchedEvents, "1");
    assert FetchedEvents == [FetchedEvents[0]] + FetchedEvents[1..];
    assert left == FetchedEvents[1..] by {
      Seqs.FilterKeepsAll(FetchedEvents[1..], (e: Event) => e.id != "1");
    }
    assert NatToString(3) == "3";
  }

  // ---- reminder and delete ----------------------------------------------

  /** `toggleReminder`: events with the id get the opposite reminder, everything else is kept. */
  function ToggledReminder(events: seq<Event>, id: string): (r: seq<Event>)
    ensures |r| == |events|
    ensures forall i :: 0 <= i < |events| ==>
      r[i].(reminder := events[i].reminder) == events[i] &&
      (r[i].reminder != events[i].reminder <==> events[i].id == id)
  {
    seq(|events|, i requires 0 <= i < |events| =>
      if events[i].id == id then events[i].(reminder := !events[i].reminder) else events[i])
  }

  /** Toggling the same id twice restores the list. */
  lemma ToggleTwiceRestores(events: seq<Event>, id: string)
    ensures ToggledReminder(ToggledReminder(events, id), id) == events
  {
    var r := ToggledReminder(ToggledReminder(events, id), id);
    forall i | 0 <= i < |events| ensures r[i] == events[i] {
    }
  }

  /** `deleteEvent`: every event with the id is dropped. */
  function Deleted(events: seq<Event>, id: string): (r: seq<Event>)
    ensures |r| <= |events|
    ensures forall i :: 0 <= i < |r| ==> r[i].id != id
  {
    Seqs.Filter(events, (e: Event) => e.id != id)
  }

  /** After a delete no event has the id, and every event with another id is still there. */
  lemma DeletedRemovesExactly(events: seq<Event>, id: string)
    ensures forall e :: e in Deleted(events, id) <==> e in events && e.id != id
  {
    var r := Deleted(events, id);
    forall e | e in r ensures e in events && e.id != id {
      var i :| 0 <= i < |r| && r[i] == e;
    }
    forall e | e in events && e.id != id ensures e in r {
      var i :| 0 <= i < |events| && events[i] == e;
    }
  }

  /** The survivors keep their order: deleting distributes over concatenation. */
  lemma DeletedKeepsOrder(a: seq<Event>, b: seq<Event>, id: string)
    ensures Deleted(a + b, id) == Deleted(a, id) + Deleted(b, id)
  {
    Seqs.FilterConcat(a, b, (e: Event) => e.id != id);
  }

  // ---- the screen ----------------------------------------------------------

  class EventsScreen {
    var upcomingEvents: seq<Event>
    var markedDates: map<string, Mark>
    var searchQuery: string
    var sortBy: SortMode
    var showAddModal: bool
    var newEvent: Draft

    constructor ()
      ensures upcomingEvents == [] && markedDates == map[] && searchQuery == ""
      ensures sortBy == ByDate && !showAddModal && newEvent == EmptyDraft
    {
      upcomingEvents := [];
      markedDates := map[];
      searchQuery := "";
      sortBy := ByDate;
      showAddModal := false;
      newEvent := EmptyDraft;
    }

    /** The list shown under the calendar. */
    function FilteredEvents(): (r: seq<Event>)
      reads this
      ensures |r| <= |upcomingEvents|
    {
      Filtered(upcomingEvents, searchQuery, sortBy)
    }

    method UpdateMarkedDates(events: seq<Event>)
      modifies this`markedDates
      ensures IsMarkingOf(markedDates, events)
    {
      markedDates := BuildMarkedDates(events);
    }

    /** The mount effect: load the events and mark their days. */
    method Load()
      modifies this`upcomingEvents, this`markedDates
      ensures upcomingEvents == FetchedEvents && IsMarkingOf(markedDates, FetchedEvents)
    {
      upcomingEvents := FetchedEvents;
      UpdateMarkedDates(FetchedEvents);
    }

    method HandleAddEvent()
      modifies this`upcomingEvents, this`markedDates, this`showAddModal, this`newEvent
      ensures !DraftComplete(old(newEvent)) ==>
        upcomingEvents == old(upcomingEvents) && markedDates == old(markedDates) &&
        showAddModal == old(showAddModal) && newEvent == old(newEvent)
      ensures DraftComplete(old(newEvent)) ==>
        && upcomingEvents == Added(old(upcomingEvents), old(newEvent)).value
        && IsMarkingOf(markedDates, upcomingEvents)
        && !showAddModal && newEvent == EmptyDraft
    {
      var updated := Added(upcomingEvents, newEvent);
      if updated.Some? {
        upcomingEvents := updated.value;
        UpdateMarkedDates(updated.value);
        showAddModal := false;
        newEvent := EmptyDraft;
      }
    }

    /** The calendar is not refreshed: a reminder does not change any day. */
    method ToggleReminder(eventId: string)
      modifies this`upcomingEvents
      ensures upcomingEvents == ToggledReminder(old(upcomingEvents), eventId)
    {
      upcomingEvents := ToggledReminder(upcomingEvents, eventId);
    }

    method DeleteEvent(eventId: string)
      modifies this`upcomingEvents, this`markedDates
      ensures upcomingEvents == Deleted(old(upcomingEvents), eventId)
      ensures IsMarkingOf(markedDates, upcomingEvents)
    {
      upcomingEvents := Deleted(upcomingEvents, eventId);
      UpdateMarkedDates(upcomingEvents);
    }

    method ToggleSort()
      modifies this`sortBy
      ensures sortBy == NextSortMode(old(sortBy))
    {
      sortBy := NextSortMode(sortBy);
    }

    method SetSearchQuery(query: string)
      modifies this`searchQuery
      ensures searchQuery == query
    {
      searchQuery := query;
    }
  }
}

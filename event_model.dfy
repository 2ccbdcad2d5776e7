/** The event table, the `event_venues` junction table and the pure parts of the
    event actions: the junction rows built from a list of venue ids, the way a
    fetched event's joined rows are flattened, and the list filters. */
module EventModel {
  import opened Wrappers
  import opened Text
  import opened Seqs
  import opened Ordering
  import opened VenueModel

  /** The columns a caller supplies for an event (`EventData`); `venueId` is the
      older single-venue column, passed through like any other. */
  datatype EventData = EventData(
    name: string,
    description: Option<string>,
    startDate: string,
    endDate: Option<string>,
    venueId: Option<Id>,
    sportType: string,
    createdBy: Id)

  /** The argument of `createEvent`: the columns plus the optional `venue_ids`. */
  datatype EventInput = EventInput(data: EventData, venueIds: Option<seq<Id>>)

  /** A stored event row. */
  datatype Event = Event(id: Id, createdAt: string, data: EventData)

  /** `Partial<EventData>`. */
  datatype EventPatch = EventPatch(
    name: Option<string>,
    description: Option<string>,
    startDate: Option<string>,
    endDate: Option<string>,
    venueId: Option<Id>,
    sportType: Option<string>,
    createdBy: Option<Id>)

  /** The argument of `updateEvent`: the partial columns plus the optional `venue_ids`. */
  datatype EventUpdate = EventUpdate(patch: EventPatch, venueIds: Option<seq<Id>>)

  function PatchedEvent(d: EventData, p: EventPatch): EventData
  {
    EventData(
      Pick(p.name, d.name),
      PickOptional(p.description, d.description),
      Pick(p.startDate, d.startDate),
      PickOptional(p.endDate, d.endDate),
      PickOptional(p.venueId, d.venueId),
      Pick(p.sportType, d.sportType),
      Pick(p.createdBy, d.createdBy))
  }

  /** An event patch changes exactly the supplied columns. */
  lemma PatchedEventFields(d: EventData, p: EventPatch)
    ensures var r := PatchedEvent(d, p);
      && (r.name == if p.name.Some? then p.name.value else d.name)
      && (r.startDate == if p.startDate.Some? then p.startDate.value else d.startDate)
      && (r.sportType == if p.sportType.Some? then p.sportType.value else d.sportType)
      && (r.createdBy == if p.createdBy.Some? then p.createdBy.value else d.createdBy)
      && (r.description == if p.description.Some? then p.description else d.description)
      && (r.endDate == if p.endDate.Some? then p.endDate else d.endDate)
      && (r.venueId == if p.venueId.Some? then p.venueId else d.venueId)
  {
  }

  predicate HasEventId(events: seq<Event>, id: Id)
  {
    exists k :: 0 <= k < |events| && events[k].id == id
  }

  predicate UniqueEventIds(events: seq<Event>)
  {
    forall i, j :: 0 <= i < j < |events| ==> events[i].id != events[j].id
  }

  /** `select ... where id = <id>` read with `.single()`. */
  function FindEvent(events: seq<Event>, id: Id): (r: Option<Event>)
    ensures r.Some? ==> r.value in events && r.value.id == id
    ensures r.None? <==> !HasEventId(events, id)
  {
    if events == [] then None
    else if events[0].id == id then Some(events[0])
    else
      var r := FindEvent(events[1..], id);
      assert HasEventId(events, id) ==> HasEventId(events[1..], id) by {
        if HasEventId(events, id) {
          var k :| 0 <= k < |events| && events[k].id == id;
          assert events[1..][k - 1].id == id;
        }
      }
      assert HasEventId(events[1..], id) ==> HasEventId(events, id) by {
        if HasEventId(events[1..], id) {
          var k :| 0 <= k < |events[1..]| && events[1..][k].id == id;
          assert events[k + 1].id == id;
        }
      }
      r
  }

  lemma FindEventUnique(events: seq<Event>, id: Id, e: Event)
    requires UniqueEventIds(events)
    requires e in events && e.id == id
    ensures FindEvent(events, id) == Some(e)
  {
    var i :| 0 <= i < |events| && events[i] == e;
    var w := FindEvent(events, id).value;
    var j :| 0 <= j < |events| && events[j] == w;
    assert i == j;
  }

  function UpdateEventById(events: seq<Event>, id: Id, p: EventPatch): (r: seq<Event>)
    ensures |r| == |events|
  {
    seq(|events|, i requires 0 <= i < |events| =>
      if events[i].id == id then events[i].(data := PatchedEvent(events[i].data, p)) else events[i])
  }

  /** The event update keeps ids unique, changes the columns of its own row only, and
      the row read back is the patched one. */
  lemma UpdateEventThenFind(events: seq<Event>, id: Id, p: EventPatch, e: Event)
    requires UniqueEventIds(events)
    requires FindEvent(events, id) == Some(e)
    ensures UniqueEventIds(UpdateEventById(events, id, p))
    ensures FindEvent(UpdateEventById(events, id, p), id) == Some(e.(data := PatchedEvent(e.data, p)))
    ensures forall i :: 0 <= i < |events| && events[i].id != id ==> UpdateEventById(events, id, p)[i] == events[i]
  {
    var t := UpdateEventById(events, id, p);
    var i :| 0 <= i < |events| && events[i] == e;
    assert t[i] == e.(data := PatchedEvent(e.data, p));
    FindEventUnique(t, id, t[i]);
  }

  lemma {:induction false} FilterUniqueEventIds(events: seq<Event>, p: Event -> bool)
    requires UniqueEventIds(events)
    ensures UniqueEventIds(Filter(events, p))
  {
    if events != [] {
      FilterUniqueEventIds(events[1..], p);
      var rest := Filter(events[1..], p);
      forall i | 0 <= i < |rest| ensures rest[i].id != events[0].id {
        var j :| 0 <= j < |events[1..]| && events[1..][j] == rest[i];
        assert events[j + 1] == rest[i];
      }
    }
  }

  /** A new event with a fresh id keeps ids unique and is found again as inserted. */
  lemma InsertEventThenFind(events: seq<Event>, e: Event)
    requires UniqueEventIds(events) && !HasEventId(events, e.id)
    ensures UniqueEventIds(events + [e])
    ensures FindEvent(events + [e], e.id) == Some(e)
  {
    var t := events + [e];
    assert t[|events|] == e;
    forall i, j | 0 <= i < j < |t| ensures t[i].id != t[j].id {
      if j == |events| {
        assert t[i] == events[i];
      }
    }
    FindEventUnique(t, e.id, e);
  }

  function EventIdIsNot(id: Id): Event -> bool
  {
    (e: Event) => e.id != id
  }

  function EventIdIs(id: Id): Event -> bool
  {
    (e: Event) => e.id == id
  }

  // ----- Junction rows -----

  /** One `event_venues` row. */
  datatype EventVenue = EventVenue(eventId: Id, venueId: Id, isPrimary: bool)

  /** `venue_ids.map((venue_id, index) => ({ event_id, venue_id, is_primary: index === 0 }))`. */
  function AssociationRows(eventId: Id, venueIds: seq<Id>): seq<EventVenue>
  {
    seq(|venueIds|, i requires 0 <= i < |venueIds| => EventVenue(eventId, venueIds[i], i == 0))
  }

  /** The venue column of a list of junction rows. */
  function VenueIdsOf(rows: seq<EventVenue>): (ids: seq<Id>)
    ensures |ids| == |rows|
  {
    seq(|rows|, i requires 0 <= i < |rows| => rows[i].venueId)
  }

  function PrimaryCount(rows: seq<EventVenue>): nat
  {
    if rows == [] then 0 else (if rows[0].isPrimary then 1 else 0) + PrimaryCount(rows[1..])
  }

  /** One row per id, in the given order, all for the given event; only the first is primary. */
  lemma AssociationRowsShape(eventId: Id, venueIds: seq<Id>)
    ensures |AssociationRows(eventId, venueIds)| == |venueIds|
    ensures VenueIdsOf(AssociationRows(eventId, venueIds)) == venueIds
    ensures forall i :: 0 <= i < |venueIds| ==>
      && AssociationRows(eventId, venueIds)[i].eventId == eventId
      && (AssociationRows(eventId, venueIds)[i].isPrimary <==> i == 0)
  {
  }

  lemma {:induction false} NoPrimaryCountsZero(rows: seq<EventVenue>)
    requires forall i :: 0 <= i < |rows| ==> !rows[i].isPrimary
    ensures PrimaryCount(rows) == 0
  {
    if rows != [] {
      NoPrimaryCountsZero(rows[1..]);
    }
  }

  /** A non-empty id list yields exactly one primary row, and it carries the first id;
      an empty list yields no rows at all. */
  lemma ExactlyOnePrimary(eventId: Id, venueIds: seq<Id>)
    ensures venueIds == [] ==> AssociationRows(eventId, venueIds) == []
    ensures venueIds != [] ==>
      && PrimaryCount(AssociationRows(eventId, venueIds)) == 1
      && AssociationRows(eventId, venueIds)[0] == EventVenue(eventId, venueIds[0], true)
  {
    var rows := AssociationRows(eventId, venueIds);
    if venueIds != [] {
      NoPrimaryCountsZero(rows[1..]);
    }
  }

  /** The rows are built as given, without removing duplicates: a repeated id gives a
      repeated venue (callers are expected to pass duplicate-free lists). */
  lemma RepeatedIdIsKept(eventId: Id, a: Id)
    ensures AssociationRows(eventId, [a, a]) ==
      [EventVenue(eventId, a, true), EventVenue(eventId, a, false)]
  {
  }

  /** A duplicate-free id list gives junction rows with no venue twice. */
  lemma DistinctIdsDistinctVenues(eventId: Id, venueIds: seq<Id>)
    requires NoDuplicates(venueIds)
    ensures NoDuplicates(VenueIdsOf(AssociationRows(eventId, venueIds)))
  {
    AssociationRowsShape(eventId, venueIds);
  }

  function IsFor(eventId: Id): EventVenue -> bool
  {
    (r: EventVenue) => r.eventId == eventId
  }

  function IsNotFor(eventId: Id): EventVenue -> bool
  {
    (r: EventVenue) => r.eventId != eventId
  }

  /** The junction rows of one event, in table order. */
  function RowsFor(links: seq<EventVenue>, eventId: Id): seq<EventVenue>
  {
    Filter(links, IsFor(eventId))
  }

  /** `delete().eq("event_id", id)` followed by the insert of the new rows. */
  function ReplaceAssociations(links: seq<EventVenue>, eventId: Id, venueIds: seq<Id>): seq<EventVenue>
  {
    Filter(links, IsNotFor(eventId)) + AssociationRows(eventId, venueIds)
  }

  /** Appending one event's rows leaves the rows of every other event as they were;
      the event's own rows gain the new ones at the end. */
  lemma AppendAssociationsEffect(links: seq<EventVenue>, eventId: Id, venueIds: seq<Id>)
    ensures RowsFor(links + AssociationRows(eventId, venueIds), eventId)
      == RowsFor(links, eventId) + AssociationRows(eventId, venueIds)
    ensures forall other :: other != eventId ==>
      RowsFor(links + AssociationRows(eventId, venueIds), other) == RowsFor(links, other)
  {
    var rows := AssociationRows(eventId, venueIds);
    FilterAppend(links, rows, IsFor(eventId));
    FilterKeepsAll(rows, IsFor(eventId));
    forall other | other != eventId
      ensures RowsFor(links + rows, other) == RowsFor(links, other)
    {
      FilterAppend(links, rows, IsFor(other));
      FilterKeepsNone(rows, IsFor(other));
    }
  }

  /** Replacing an event's associations leaves it with exactly the new rows, in order,
      and leaves the rows of every other event as they were. */
  lemma ReplaceAssociationsEffect(links: seq<EventVenue>, eventId: Id, venueIds: seq<Id>)
    ensures RowsFor(ReplaceAssociations(links, eventId, venueIds), eventId)
      == AssociationRows(eventId, venueIds)
    ensures forall other :: other != eventId ==>
      RowsFor(ReplaceAssociations(links, eventId, venueIds), other) == RowsFor(links, other)
  {
    var kept := Filter(links, IsNotFor(eventId));
    AppendAssociationsEffect(kept, eventId, venueIds);
    FilterKeepsNone(kept, IsFor(eventId));
    forall other | other != eventId
      ensures RowsFor(kept, other) == RowsFor(links, other)
    {
      FilterOfFilter(links, IsFor(other), IsNotFor(eventId));
    }
  }

  /** Replacing an event's associations twice with the same ids gives the same table as
      replacing them once. */
  lemma ReplaceAssociationsIdempotent(links: seq<EventVenue>, eventId: Id, venueIds: seq<Id>)
    ensures ReplaceAssociations(ReplaceAssociations(links, eventId, venueIds), eventId, venueIds)
      == ReplaceAssociations(links, eventId, venueIds)
  {
    var kept := Filter(links, IsNotFor(eventId));
    var rows := AssociationRows(eventId, venueIds);
    FilterAppend(kept, rows, IsNotFor(eventId));
    FilterOfFilter(links, IsNotFor(eventId), IsNotFor(eventId));
    forall x | x in rows ensures !IsNotFor(eventId)(x) {
      var i :| 0 <= i < |rows| && rows[i] == x;
    }
    FilterKeepsNone(rows, IsNotFor(eventId));
    assert Filter(kept + rows, IsNotFor(eventId)) == kept;
  }

  // ----- Joining and flattening -----

  /** The venue columns embedded in an event query: `venues (id, name, address, city, state)`. */
  datatype VenueSummary = VenueSummary(id: Id, name: string, address: string, city: string, state: Option<string>)

  function Summary(v: Venue): VenueSummary
  {
    VenueSummary(v.id, v.data.name, v.data.address, v.data.city, v.data.state)
  }

  /** One element of the embedded `event_venues` array; `venue` is null when the
      referenced venue row is gone. */
  datatype JoinedRow = JoinedRow(isPrimary: bool, venue: Option<VenueSummary>)

  /** An event as the store returns it, with its embedded junction rows (absent when the
      store sends none). */
  datatype FetchedEvent = FetchedEvent(event: Event, eventVenues: Option<seq<JoinedRow>>)

  /** `{ ...ev.venues, is_primary: ev.is_primary }`. */
  datatype FlatVenue = FlatVenue(venue: Option<VenueSummary>, isPrimary: bool)

  /** The shape returned to callers: everything fetched plus `venues` and `primary_venue`. */
  datatype EventWithVenues = EventWithVenues(
    event: Event,
    eventVenues: Option<seq<JoinedRow>>,
    venues: seq<FlatVenue>,
    primaryVenue: Option<VenueSummary>)

  /** `event_venues?.map(...) || []`. */
  function FlattenVenues(evs: Option<seq<JoinedRow>>): seq<FlatVenue>
  {
    match evs
    case None => []
    case Some(rows) => seq(|rows|, i requires 0 <= i < |rows| => FlatVenue(rows[i].venue, rows[i].isPrimary))
  }

  /** Row `i` is the first flagged primary. */
  predicate FirstFlaggedAt(rows: seq<JoinedRow>, i: int)
  {
    0 <= i < |rows| && rows[i].isPrimary && forall j :: 0 <= j < i ==> !rows[j].isPrimary
  }

  /** `event_venues.find(ev => ev.is_primary)`. */
  function FindPrimary(rows: seq<JoinedRow>): (r: Option<JoinedRow>)
    ensures r.Some? ==> exists i :: FirstFlaggedAt(rows, i) && rows[i] == r.value
    ensures r.None? <==> forall j :: 0 <= j < |rows| ==> !rows[j].isPrimary
  {
    if rows == [] then None
    else if rows[0].isPrimary then
      assert FirstFlaggedAt(rows, 0);
      Some(rows[0])
    else
      var r := FindPrimary(rows[1..]);
      if r.Some? then
        var i :| FirstFlaggedAt(rows[1..], i) && rows[1..][i] == r.value;
        assert FirstFlaggedAt(rows, i + 1);
        r
      else
        assert forall j :: 1 <= j < |rows| ==> rows[j] == rows[1..][j - 1];
        r
  }

  /** `event_venues?.find(ev => ev.is_primary)?.venues || null`. */
  function PrimaryVenue(evs: Option<seq<JoinedRow>>): Option<VenueSummary>
  {
    match evs
    case None => None
    case Some(rows) =>
      match FindPrimary(rows)
      case None => None
      case Some(row) => row.venue
  }

  /** The flattening step of getEvents and getEventById. */
  function Transform(f: FetchedEvent): EventWithVenues
  {
    EventWithVenues(f.event, f.eventVenues, FlattenVenues(f.eventVenues), PrimaryVenue(f.eventVenues))
  }

  /** `venues` has one entry per joined row, in the same order, each the row's venue with
      its flag; with no joined rows it is empty. The event columns pass through. */
  lemma TransformVenues(f: FetchedEvent)
    ensures Transform(f).event == f.event && Transform(f).eventVenues == f.eventVenues
    ensures f.eventVenues.None? ==> Transform(f).venues == [] && Transform(f).primaryVenue.None?
    ensures f.eventVenues.Some? ==>
      var rows := f.eventVenues.value;
      && |Transform(f).venues| == |rows|
      && forall i :: 0 <= i < |rows| ==>
           Transform(f).venues[i] == FlatVenue(rows[i].venue, rows[i].isPrimary)
  {
  }

  /** The venue of the first entry flagged primary in a flattened list, or none. */
  function FirstFlaggedVenue(vs: seq<FlatVenue>): Option<VenueSummary>
  {
    if vs == [] then None
    else if vs[0].isPrimary then vs[0].venue
    else FirstFlaggedVenue(vs[1..])
  }

  /** `primary_venue` is the venue of the first row flagged primary, or null when no row is
      flagged (or that row's venue is gone). */
  lemma {:induction false} PrimaryVenueIsFirstFlagged(f: FetchedEvent)
    ensures Transform(f).primaryVenue == FirstFlaggedVenue(Transform(f).venues)
    decreases if f.eventVenues.Some? then |f.eventVenues.value| else 0
  {
    match f.eventVenues
    case None =>
    case Some(rows) =>
      if rows != [] && !rows[0].isPrimary {
        var tail := FetchedEvent(f.event, Some(rows[1..]));
        PrimaryVenueIsFirstFlagged(tail);
        assert FlattenVenues(f.eventVenues)[1..] == FlattenVenues(tail.eventVenues);
      }
  }

  /** The embedded venue columns for a junction row's venue id, or null when no such venue. */
  function LookupSummary(venues: seq<Venue>, id: Id): Option<VenueSummary>
  {
    match FindById(venues, id)
    case None => None
    case Some(v) => Some(Summary(v))
  }

  /** The embedding the store performs: the event's junction rows, in table order,
      each with its venue's columns. */
  function Joined(venues: seq<Venue>, rows: seq<EventVenue>): (r: seq<JoinedRow>)
    ensures |r| == |rows|
  {
    seq(|rows|, i requires 0 <= i < |rows| => JoinedRow(rows[i].isPrimary, LookupSummary(venues, rows[i].venueId)))
  }

  function Fetch(venues: seq<Venue>, links: seq<EventVenue>, e: Event): FetchedEvent
  {
    FetchedEvent(e, Some(Joined(venues, RowsFor(links, e.id))))
  }

  /** What getEvents and getEventById return for one event. */
  function View(venues: seq<Venue>, links: seq<EventVenue>, e: Event): EventWithVenues
  {
    Transform(Fetch(venues, links, e))
  }

  /** An event whose junction rows were written from `venueIds` reads back with its venues
      in that order, the first flagged primary, and that venue as `primary_venue`;
      an empty list reads back as no venues and no primary. */
  lemma ReadBackAssociations(venues: seq<Venue>, links: seq<EventVenue>, e: Event, venueIds: seq<Id>)
    requires RowsFor(links, e.id) == AssociationRows(e.id, venueIds)
    ensures |View(venues, links, e).venues| == |venueIds|
    ensures forall i :: 0 <= i < |venueIds| ==>
      View(venues, links, e).venues[i] == FlatVenue(LookupSummary(venues, venueIds[i]), i == 0)
    ensures View(venues, links, e).primaryVenue ==
      if venueIds == [] then None else LookupSummary(venues, venueIds[0])
  {
    var rows := Joined(venues, AssociationRows(e.id, venueIds));
    if venueIds != [] {
      assert FindPrimary(rows) == Some(rows[0]);
    }
  }

  // ----- The list filters of getEvents -----

  /** Name or description contains the term, ignoring case; no description never matches. */
  predicate MatchesEventSearchTerm(e: Event, term: string)
  {
    || ContainsIgnoringCase(e.data.name, term)
    || (e.data.description.Some? && ContainsIgnoringCase(e.data.description.value, term))
  }

  predicate MatchesEventSearch(e: Event, search: Option<string>)
  {
    search.Some? && Supplied(search.value) ==> MatchesEventSearchTerm(e, Trim(search.value))
  }

  /** The sport filter is guarded by its trimmed value but compares the value as given. */
  predicate MatchesSport(e: Event, sport: Option<string>)
  {
    sport.Some? && Supplied(sport.value) ==> e.data.sportType == sport.value
  }

  datatype EventCondition =
    | NameOrDescriptionLike(term: string)   // name or description ilike %term%
    | SportEquals(value: string)            // sport_type = value

  predicate SatisfiesEvent(e: Event, c: EventCondition)
  {
    match c
    case NameOrDescriptionLike(term) => MatchesEventSearchTerm(e, term)
    case SportEquals(value) => e.data.sportType == value
  }

  predicate SatisfiesAllEvent(e: Event, conditions: seq<EventCondition>)
  {
    conditions == [] || (SatisfiesEvent(e, conditions[0]) && SatisfiesAllEvent(e, conditions[1..]))
  }

  function MeetsEventConditions(conditions: seq<EventCondition>): Event -> bool
  {
    (e: Event) => SatisfiesAllEvent(e, conditions)
  }

  function StartDate(e: Event): string
  {
    e.data.startDate
  }

  /** The events meeting every condition, earliest start first. */
  function RunEventQuery(events: seq<Event>, conditions: seq<EventCondition>): (r: seq<Event>)
    ensures SortedBy(r, StartDate, false)
    ensures multiset(r) == multiset(Filter(events, MeetsEventConditions(conditions)))
  {
    SortBy(Filter(events, MeetsEventConditions(conditions)), StartDate, false)
  }

  function MatchesEventFilters(search: Option<string>, sport: Option<string>): Event -> bool
  {
    (e: Event) => MatchesEventSearch(e, search) && MatchesSport(e, sport)
  }

  /** The flattened view of every listed event. */
  function Views(venues: seq<Venue>, links: seq<EventVenue>, events: seq<Event>): (r: seq<EventWithVenues>)
    ensures |r| == |events|
  {
    seq(|events|, i requires 0 <= i < |events| => View(venues, links, events[i]))
  }

  /** The event rows of a list of views. */
  function EventsOf(vs: seq<EventWithVenues>): (r: seq<Event>)
    ensures |r| == |vs|
  {
    seq(|vs|, i requires 0 <= i < |vs| => vs[i].event)
  }

  /** The views list the given events, in their order, each flattened from its own rows. */
  lemma ViewsShape(venues: seq<Venue>, links: seq<EventVenue>, events: seq<Event>)
    ensures EventsOf(Views(venues, links, events)) == events
    ensures forall i :: 0 <= i < |events| ==>
      Views(venues, links, events)[i] == View(venues, links, Views(venues, links, events)[i].event)
  {
  }

  lemma {:induction false} SelectEventByIdSingle(events: seq<Event>, id: Id)
    requires UniqueEventIds(events) && HasEventId(events, id)
    ensures Filter(events, EventIdIs(id)) == [FindEvent(events, id).value]
  {
    if events[0].id == id {
      forall e | e in events[1..] ensures !EventIdIs(id)(e) {
        var j :| 0 <= j < |events[1..]| && events[1..][j] == e;
        assert events[j + 1] == e;
      }
      FilterKeepsNone(events[1..], EventIdIs(id));
    } else {
      var k :| 0 <= k < |events| && events[k].id == id;
      assert events[1..][k - 1].id == id;
      SelectEventByIdSingle(events[1..], id);
    }
  }

  lemma {:induction false} SatisfiesAllEventAppend(e: Event, a: seq<EventCondition>, b: seq<EventCondition>)
    ensures SatisfiesAllEvent(e, a + b) == (SatisfiesAllEvent(e, a) && SatisfiesAllEvent(e, b))
  {
    if a == [] {
      assert a + b == b;
    } else {
      assert (a + b)[1..] == a[1..] + b;
      SatisfiesAllEventAppend(e, a[1..], b);
    }
  }

  /** The condition the search text adds, when it is supplied. */
  function SearchEventCondition(search: Option<string>): seq<EventCondition>
  {
    if search.Some? && Supplied(search.value) then [NameOrDescriptionLike(Trim(search.value))] else []
  }

  /** The condition the sport filter adds, when it is supplied: the untrimmed value. */
  function SportCondition(sport: Option<string>): seq<EventCondition>
  {
    if sport.Some? && Supplied(sport.value) then [SportEquals(sport.value)] else []
  }

  lemma SearchEventConditionAgrees(e: Event, search: Option<string>)
    ensures SatisfiesAllEvent(e, SearchEventCondition(search)) == MatchesEventSearch(e, search)
  {
    if search.Some? && Supplied(search.value) {
      assert SatisfiesAllEvent(e, SearchEventCondition(search))
        == SatisfiesEvent(e, NameOrDescriptionLike(Trim(search.value)));
    }
  }

  lemma SportConditionAgrees(e: Event, sport: Option<string>)
    ensures SatisfiesAllEvent(e, SportCondition(sport)) == MatchesSport(e, sport)
  {
    if sport.Some? && Supplied(sport.value) {
      assert SatisfiesAllEvent(e, SportCondition(sport)) == SatisfiesEvent(e, SportEquals(sport.value));
    }
  }

  /** Running the built event query gives the events the filter describes, earliest first. */
  lemma RunEventQueryMatchesFilters(events: seq<Event>, search: Option<string>, sport: Option<string>)
    ensures var r := RunEventQuery(events, SearchEventCondition(search) + SportCondition(sport));
      && SortedBy(r, StartDate, false)
      && multiset(r) == multiset(Filter(events, MatchesEventFilters(search, sport)))
      && forall e :: e in r <==> e in events && MatchesEventSearch(e, search) && MatchesSport(e, sport)
  {
    var query := SearchEventCondition(search) + SportCondition(sport);
    var r := RunEventQuery(events, query);
    forall e ensures MeetsEventConditions(query)(e) == MatchesEventFilters(search, sport)(e) {
      SatisfiesAllEventAppend(e, SearchEventCondition(search), SportCondition(sport));
      SearchEventConditionAgrees(e, search);
      SportConditionAgrees(e, sport);
    }
    FilterCongruent(events, MeetsEventConditions(query), MatchesEventFilters(search, sport));
    forall e ensures e in r <==> e in events && MatchesEventSearch(e, search) && MatchesSport(e, sport) {
      assert e in r <==> e in multiset(r);
      FilterMembership(events, MatchesEventFilters(search, sport), e);
    }
  }

  /** `r` is a listing of the events matching the search and sport filters: earliest start
      first, each matching event as often as it occurs, and each entry flattened from the
      event's own junction rows. */
  ghost predicate IsEventListing(venues: seq<Venue>, links: seq<EventVenue>, events: seq<Event>,
                           search: Option<string>, sport: Option<string>, r: seq<EventWithVenues>)
  {
    && SortedBy(EventsOf(r), StartDate, false)
    && multiset(EventsOf(r)) == multiset(Filter(events, MatchesEventFilters(search, sport)))
    && (forall e :: e in EventsOf(r) <==> e in events && MatchesEventSearch(e, search) && MatchesSport(e, sport))
    && forall i :: 0 <= i < |r| ==> r[i] == View(venues, links, r[i].event)
  }

  /** The list getEvents returns: the filtered events, earliest first, each flattened. */
  lemma ListedEventsMatchFilters(venues: seq<Venue>, links: seq<EventVenue>, events: seq<Event>,
                                 search: Option<string>, sport: Option<string>, query: seq<EventCondition>)
    requires query == SearchEventCondition(search) + SportCondition(sport)
    ensures IsEventListing(venues, links, events, search, sport, Views(venues, links, RunEventQuery(events, query)))
  {
    var listed := RunEventQuery(events, query);
    RunEventQueryMatchesFilters(events, search, sport);
    ViewsShape(venues, links, listed);
  }

  /** Every entry of an event listing is what a lookup of its event by id gives: getEvents
      and getEventById agree on `venues` and `primary_venue`. */
  lemma ListingAgreesWithLookup(venues: seq<Venue>, links: seq<EventVenue>, events: seq<Event>,
                                search: Option<string>, sport: Option<string>, r: seq<EventWithVenues>, i: int)
    requires IsEventListing(venues, links, events, search, sport, r)
    requires UniqueEventIds(events) && 0 <= i < |r|
    ensures HasEventId(events, r[i].event.id)
    ensures View(venues, links, FindEvent(events, r[i].event.id).value) == r[i]
  {
    assert EventsOf(r)[i] == r[i].event;
    FindEventUnique(events, r[i].event.id, r[i].event);
  }
}

/** The event server actions over the store. As for venues, each store call either
    succeeds or answers with an error message, which is returned as a failure. */
module EventActions {
  import opened Wrappers
  import opened Text
  import opened Seqs
  import opened Ordering
  import opened VenueModel
  import opened EventModel
  import opened Store

  /** The ids to associate: `venue_ids`, with an absent list read as empty. */
  function RequestedIds(venueIds: Option<seq<Id>>): seq<Id>
  {
    if venueIds.Some? then venueIds.value else []
  }

  /** `createEvent`: inserts the event row without `venue_ids`, then, for a non-empty
      list, one junction row per id with the first marked primary. The two inserts are
      separate: when the second fails the event row stays. */
  method CreateEvent(db: Database, input: EventInput, newId: Id, now: string,
                     eventError: Option<string>, venuesError: Option<string>)
    returns (r: Result<Event>)
    requires db.Valid()
    requires !HasEventId(db.events, newId) && RowsFor(db.eventVenues, newId) == []
    modifies db
    ensures db.Valid() && db.venues == old(db.venues)
    ensures eventError.Some? ==>
      && r == Failure(eventError.value)
      && db.events == old(db.events) && db.eventVenues == old(db.eventVenues)
    ensures eventError.None? ==>
      && db.events == old(db.events) + [Event(newId, now, input.data)]
      && FindEvent(db.events, newId) == Some(Event(newId, now, input.data))
    ensures eventError.None? && RequestedIds(input.venueIds) == [] ==>
      r == Success(Event(newId, now, input.data)) && db.eventVenues == old(db.eventVenues)
    ensures eventError.None? && RequestedIds(input.venueIds) != [] && venuesError.Some? ==>
      r == Failure(venuesError.value) && db.eventVenues == old(db.eventVenues)
    ensures eventError.None? && RequestedIds(input.venueIds) != [] && venuesError.None? ==>
      && r == Success(Event(newId, now, input.data))
      && db.eventVenues == old(db.eventVenues) + AssociationRows(newId, RequestedIds(input.venueIds))
    ensures r.Success? ==> RowsFor(db.eventVenues, newId) == AssociationRows(newId, RequestedIds(input.venueIds))
    ensures forall other :: other != newId ==> RowsFor(db.eventVenues, other) == RowsFor(old(db.eventVenues), other)
  {
    if eventError.Some? {
      return Failure(eventError.value);
    }
    var event := Event(newId, now, input.data);
    InsertEventThenFind(db.events, event);
    db.events := db.events + [event];
    if input.venueIds.Some? && |input.venueIds.value| > 0 {
      var rows := AssociationRows(newId, input.venueIds.value);
      if venuesError.Some? {
        return Failure(venuesError.value);
      }
      AppendAssociationsEffect(db.eventVenues, newId, input.venueIds.value);
      db.eventVenues := db.eventVenues + rows;
    }
    return Success(event);
  }

  /** `getEvents`: the query is built up one optional condition at a time and run with
      `order("start_date", { ascending: true })`; each event is then joined and flattened. */
  method GetEvents(db: Database, searchQuery: Option<string>, sportFilter: Option<string>, storeError: Option<string>)
    returns (r: Result<seq<EventWithVenues>>)
    ensures storeError.Some? ==> r == Failure(storeError.value)
    ensures storeError.None? ==> r.Success?
    ensures r.Success? ==> IsEventListing(db.venues, db.eventVenues, db.events, searchQuery, sportFilter, r.data)
  {
    var query: seq<EventCondition> := [];
    if searchQuery.Some? && Supplied(searchQuery.value) {
      query := query + [NameOrDescriptionLike(Trim(searchQuery.value))];
    }
    assert query == SearchEventCondition(searchQuery);
    ghost var searched := query;
    if sportFilter.Some? && Supplied(sportFilter.value) {
      query := query + [SportEquals(sportFilter.value)];
    }
    assert query == searched + SportCondition(sportFilter);
    if storeError.Some? {
      return Failure(storeError.value);
    }
    ListedEventsMatchFilters(db.venues, db.eventVenues, db.events, searchQuery, sportFilter, query);
    r := Success(Views(db.venues, db.eventVenues, RunEventQuery(db.events, query)));
  }

  /** `getEventById`: the one event with the id, flattened as in getEvents. */
  method GetEventById(db: Database, id: Id, storeError: Option<string>) returns (r: Result<EventWithVenues>)
    ensures storeError.Some? ==> r == Failure(storeError.value)
    ensures storeError.None? && !HasEventId(db.events, id) ==> r == Failure(NoSingleRowMessage)
    ensures db.Valid() && storeError.None? && HasEventId(db.events, id) ==>
      r == Success(View(db.venues, db.eventVenues, FindEvent(db.events, id).value))
    ensures r.Success? ==>
      && r.data.event in db.events && r.data.event.id == id
      && r.data == View(db.venues, db.eventVenues, r.data.event)
  {
    if storeError.Some? {
      return Failure(storeError.value);
    }
    var matches := Filter(db.events, EventIdIs(id));
    if db.Valid() && HasEventId(db.events, id) {
      SelectEventByIdSingle(db.events, id);
    }
    if |matches| != 1 {
      if HasEventId(db.events, id) {
        var k :| 0 <= k < |db.events| && db.events[k].id == id;
        FilterMembership(db.events, EventIdIs(id), db.events[k]);
      }
      return Failure(NoSingleRowMessage);
    }
    return Success(View(db.venues, db.eventVenues, matches[0]));
  }

  /** `updateEvent`: updates the event's columns; when `venue_ids` is given (even empty)
      it then deletes the event's junction rows and inserts the new ones. The delete's
      outcome is not checked: when the store refuses it (`deleteError`) the old rows stay
      and the insert still runs. A failed insert is reported after the delete took effect. */
  method UpdateEvent(db: Database, id: Id, update: EventUpdate,
                     updateError: Option<string>, deleteError: Option<string>, insertError: Option<string>)
    returns (r: Result<Event>)
    requires db.Valid()
    modifies db
    ensures db.Valid() && db.venues == old(db.venues)
    ensures updateError.Some? ==>
      && r == Failure(updateError.value)
      && db.events == old(db.events) && db.eventVenues == old(db.eventVenues)
    ensures updateError.None? && !HasEventId(old(db.events), id) ==>
      && r == Failure(NoSingleRowMessage)
      && db.events == old(db.events) && db.eventVenues == old(db.eventVenues)
    ensures updateError.None? && HasEventId(old(db.events), id) ==>
      var before := FindEvent(old(db.events), id).value;
      var after := before.(data := PatchedEvent(before.data, update.patch));
      var kept := if deleteError.None? then Filter(old(db.eventVenues), IsNotFor(id)) else old(db.eventVenues);
      var ids := RequestedIds(update.venueIds);
      && db.events == UpdateEventById(old(db.events), id, update.patch)
      && FindEvent(db.events, id) == Some(after)
      && (update.venueIds.None? ==> r == Success(after) && db.eventVenues == old(db.eventVenues))
      && (update.venueIds.Some? && ids == [] ==> r == Success(after) && db.eventVenues == kept)
      && (update.venueIds.Some? && ids != [] && insertError.Some? ==>
            r == Failure(insertError.value) && db.eventVenues == kept)
      && (update.venueIds.Some? && ids != [] && insertError.None? ==>
            r == Success(after) && db.eventVenues == kept + AssociationRows(id, ids))
    ensures r.Success? && update.venueIds.Some? && deleteError.None? ==>
      && RowsFor(db.eventVenues, id) == AssociationRows(id, update.venueIds.value)
      && forall other :: other != id ==> RowsFor(db.eventVenues, other) == RowsFor(old(db.eventVenues), other)
  {
    if updateError.Some? {
      return Failure(updateError.value);
    }
    var found := FindEvent(db.events, id);
    if found.None? {
      return Failure(NoSingleRowMessage);
    }
    var before := found.value;
    var after := before.(data := PatchedEvent(before.data, update.patch));
    UpdateEventThenFind(db.events, id, update.patch, before);
    db.events := UpdateEventById(db.events, id, update.patch);
    if update.venueIds.Some? {
      var ids := update.venueIds.value;
      ReplaceAssociationsEffect(db.eventVenues, id, ids);
      if deleteError.None? {
        db.eventVenues := Filter(db.eventVenues, IsNotFor(id));
      }
      if |ids| > 0 {
        if insertError.Some? {
          return Failure(insertError.value);
        }
        db.eventVenues := db.eventVenues + AssociationRows(id, ids);
      } else {
        assert ReplaceAssociations(old(db.eventVenues), id, ids) == Filter(old(db.eventVenues), IsNotFor(id));
      }
    }
    return Success(after);
  }

  /** `deleteEvent`: removes the event row and returns the removed rows. Its junction rows
      are left to the store's cascade and are not touched here. */
  method DeleteEvent(db: Database, id: Id, storeError: Option<string>) returns (r: Result<seq<Event>>)
    requires db.Valid()
    modifies db
    ensures db.Valid()
    ensures db.venues == old(db.venues) && db.eventVenues == old(db.eventVenues)
    ensures storeError.Some? ==> r == Failure(storeError.value) && db.events == old(db.events)
    ensures storeError.None? ==>
      && r == Success(Filter(old(db.events), EventIdIs(id)))
      && db.events == Filter(old(db.events), EventIdIsNot(id))
      && !HasEventId(db.events, id)
  {
    if storeError.Some? {
      return Failure(storeError.value);
    }
    var removed := Filter(db.events, EventIdIs(id));
    FilterUniqueEventIds(db.events, EventIdIsNot(id));
    db.events := Filter(db.events, EventIdIsNot(id));
    return Success(removed);
  }
}

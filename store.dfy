/** The hosted database as the actions see it: three tables. */
module Store {
  import opened VenueModel
  import opened EventModel

  /** The store's answer when `.single()` finds no row (or more than one). */
  const NoSingleRowMessage := "JSON object requested, multiple (or no) rows returned"

  class Database {
    var venues: seq<Venue>
    var events: seq<Event>
    var eventVenues: seq<EventVenue>

    /** Ids are primary keys of their tables. */
    ghost predicate Valid()
      reads this
    {
      UniqueIds(venues) && UniqueEventIds(events)
    }

    constructor ()
      ensures Valid()
      ensures venues == [] && events == [] && eventVenues == []
    {
      venues, events, eventVenues := [], [], [];
    }
  }
}

/** The venue server actions over the store. Each store call either succeeds or
    answers with an error message (`storeError`), which the action returns as a failure. */
module VenueActions {
  import opened Wrappers
  import opened Text
  import opened Seqs
  import opened Ordering
  import opened VenueModel
  import opened Store

  /** `createVenue`: inserts one row with the supplied columns and returns it. The id and
      `created_at` are generated by the store and passed in. */
  method CreateVenue(db: Database, venueData: VenueData, newId: Id, now: string, storeError: Option<string>)
    returns (r: Result<Venue>)
    requires db.Valid() && !HasId(db.venues, newId)
    modifies db
    ensures db.Valid()
    ensures db.events == old(db.events) && db.eventVenues == old(db.eventVenues)
    ensures storeError.Some? ==> r == Failure(storeError.value) && db.venues == old(db.venues)
    ensures storeError.None? ==>
      && r == Success(Venue(newId, now, venueData))
      && db.venues == old(db.venues) + [r.data]
      && FindById(db.venues, newId) == Some(r.data)
  {
    if storeError.Some? {
      return Failure(storeError.value);
    }
    var row := Venue(newId, now, venueData);
    InsertThenFind(db.venues, row);
    db.venues := db.venues + [row];
    return Success(row);
  }

  /** `getVenues`: the query is built up one optional condition at a time, then run with
      `order("created_at", { ascending: false })`. */
  method GetVenues(db: Database, searchQuery: Option<string>, cityFilter: Option<string>, storeError: Option<string>)
    returns (r: Result<seq<Venue>>)
    ensures storeError.Some? ==> r == Failure(storeError.value)
    ensures storeError.None? ==> r.Success?
    ensures r.Success? ==>
      && SortedBy(r.data, CreatedAt, true)
      && multiset(r.data) == multiset(Filter(db.venues, MatchesFilters(searchQuery, cityFilter)))
      && forall v :: v in r.data <==> v in db.venues && MatchesSearch(v, searchQuery) && MatchesCity(v, cityFilter)
  {
    var query: seq<VenueCondition> := [];
    if searchQuery.Some? && Supplied(searchQuery.value) {
      query := query + [TextSearch(Trim(searchQuery.value))];
    }
    assert query == SearchCondition(searchQuery);
    ghost var searched := query;
    if cityFilter.Some? && Supplied(cityFilter.value) {
      query := query + [CityLike(Trim(cityFilter.value))];
    }
    assert query == searched + CityCondition(cityFilter);
    if storeError.Some? {
      return Failure(storeError.value);
    }
    var rows := RunQuery(db.venues, query);
    RunQueryMatchesFilters(db.venues, searchQuery, cityFilter);
    return Success(rows);
  }

  /** `getVenueById`: `.single()` succeeds only when exactly one row has the id. */
  method GetVenueById(db: Database, id: Id, storeError: Option<string>) returns (r: Result<Venue>)
    ensures storeError.Some? ==> r == Failure(storeError.value)
    ensures storeError.None? && !HasId(db.venues, id) ==> r == Failure(NoSingleRowMessage)
    ensures db.Valid() && storeError.None? && HasId(db.venues, id) ==>
      r.Success? && r.data in db.venues && r.data.id == id
    ensures r.Success? ==> forall v :: v in db.venues && v.id == id ==> v == r.data
  {
    if storeError.Some? {
      return Failure(storeError.value);
    }
    var matches := Filter(db.venues, IdIs(id));
    if db.Valid() && HasId(db.venues, id) {
      SelectByIdSingle(db.venues, id);
    }
    if |matches| != 1 {
      if HasId(db.venues, id) {
        var k :| 0 <= k < |db.venues| && db.venues[k].id == id;
        FilterMembership(db.venues, IdIs(id), db.venues[k]);
      }
      return Failure(NoSingleRowMessage);
    }
    forall v | v in db.venues && v.id == id ensures v == matches[0] {
      FilterMembership(db.venues, IdIs(id), v);
    }
    return Success(matches[0]);
  }

  /** `updateVenue`: the update is read back with `.single()`, so it takes effect and
      returns the row only when exactly one row has the id. */
  method UpdateVenue(db: Database, id: Id, patch: VenuePatch, storeError: Option<string>)
    returns (r: Result<Venue>)
    requires db.Valid()
    modifies db
    ensures db.Valid()
    ensures db.events == old(db.events) && db.eventVenues == old(db.eventVenues)
    ensures storeError.Some? ==> r == Failure(storeError.value) && db.venues == old(db.venues)
    ensures storeError.None? && !HasId(old(db.venues), id) ==>
      r == Failure(NoSingleRowMessage) && db.venues == old(db.venues)
    ensures storeError.None? && HasId(old(db.venues), id) ==>
      var before := FindById(old(db.venues), id).value;
      && r == Success(before.(data := Patched(before.data, patch)))
      && db.venues == UpdateById(old(db.venues), id, patch)
      && FindById(db.venues, id) == Some(r.data)
  {
    if storeError.Some? {
      return Failure(storeError.value);
    }
    var found := FindById(db.venues, id);
    if found.None? {
      return Failure(NoSingleRowMessage);
    }
    var before := found.value;
    UpdateThenFind(db.venues, id, patch, before);
    db.venues := UpdateById(db.venues, id, patch);
    return Success(before.(data := Patched(before.data, patch)));
  }

  /** `deleteVenue`: removes every row with the id and returns the removed rows. Junction
      rows referring to the venue are the store's concern and stay as they are here. */
  method DeleteVenue(db: Database, id: Id, storeError: Option<string>) returns (r: Result<seq<Venue>>)
    requires db.Valid()
    modifies db
    ensures db.Valid()
    ensures db.events == old(db.events) && db.eventVenues == old(db.eventVenues)
    ensures storeError.Some? ==> r == Failure(storeError.value) && db.venues == old(db.venues)
    ensures storeError.None? ==>
      && r == Success(Filter(old(db.venues), IdIs(id)))
      && db.venues == Filter(old(db.venues), IdIsNot(id))
      && !HasId(db.venues, id)
      && (forall v :: v in old(db.venues) && v.id != id ==> v in db.venues)
  {
    if storeError.Some? {
      return Failure(storeError.value);
    }
    var removed := Filter(db.venues, IdIs(id));
    FilterUniqueIds(db.venues, IdIsNot(id));
    DeleteThenFind(db.venues, id);
    forall v | v in db.venues && v.id != id ensures v in Filter(db.venues, IdIsNot(id)) {
      FilterMembership(db.venues, IdIsNot(id), v);
    }
    db.venues := Filter(db.venues, IdIsNot(id));
    return Success(removed);
  }
}

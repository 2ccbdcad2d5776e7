/** The venue table's rows and the pure parts of the venue actions: the record a
    partial update produces and the predicates the list filters apply. */
module VenueModel {
  import opened Wrappers
  import opened Text
  import opened Seqs
  import opened Ordering

  /** Row identifiers are opaque strings generated by the store. */
  type Id = string

  /** The columns a caller supplies when creating a venue (`VenueData`). */
  datatype VenueData = VenueData(
    name: string,
    address: string,
    city: string,
    state: Option<string>,
    capacity: Option<int>,
    description: Option<string>,
    createdBy: Id)

  /** A stored row: the supplied columns plus the generated `id` and `created_at`. */
  datatype Venue = Venue(id: Id, createdAt: string, data: VenueData)

  /** `Partial<VenueData>`: `Some` for every column the caller supplies. */
  datatype VenuePatch = VenuePatch(
    name: Option<string>,
    address: Option<string>,
    city: Option<string>,
    state: Option<string>,
    capacity: Option<int>,
    description: Option<string>,
    createdBy: Option<Id>)

  const EmptyPatch := VenuePatch(None, None, None, None, None, None, None)

  function Pick<T>(supplied: Option<T>, current: T): T
  {
    if supplied.Some? then supplied.value else current
  }

  function PickOptional<T>(supplied: Option<T>, current: Option<T>): Option<T>
  {
    if supplied.Some? then supplied else current
  }

  /** The columns after `update(patch)`: a supplied column takes its new value. */
  function Patched(d: VenueData, p: VenuePatch): VenueData
  {
    VenueData(
      Pick(p.name, d.name),
      Pick(p.address, d.address),
      Pick(p.city, d.city),
      PickOptional(p.state, d.state),
      PickOptional(p.capacity, d.capacity),
      PickOptional(p.description, d.description),
      Pick(p.createdBy, d.createdBy))
  }

  /** The patch that supplies only the city, as in `updateVenue(id, { city })`. */
  function CityPatch(city: string): VenuePatch
  {
    EmptyPatch.(city := Some(city))
  }

  /** Updating only the city changes the city and nothing else. */
  lemma CityPatchChangesOnlyCity(d: VenueData, city: string)
    ensures Patched(d, CityPatch(city)) == d.(city := city)
  {
  }

  /** An empty patch leaves the record as it was. */
  lemma EmptyPatchIsIdentity(d: VenueData)
    ensures Patched(d, EmptyPatch) == d
  {
  }

  /** Applying the same patch twice is applying it once. */
  lemma PatchedIdempotent(d: VenueData, p: VenuePatch)
    ensures Patched(Patched(d, p), p) == Patched(d, p)
  {
  }

  /** Two patches in sequence: for each column the later patch wins where it supplies one. */
  lemma PatchedCompose(d: VenueData, p: VenuePatch, q: VenuePatch)
    ensures Patched(Patched(d, p), q) == Patched(d, VenuePatch(
      PickOptional(q.name, p.name), PickOptional(q.address, p.address),
      PickOptional(q.city, p.city), PickOptional(q.state, p.state),
      PickOptional(q.capacity, p.capacity), PickOptional(q.description, p.description),
      PickOptional(q.createdBy, p.createdBy)))
  {
  }

  // ----- Lookup by id -----

  predicate HasId(table: seq<Venue>, id: Id)
  {
    exists k :: 0 <= k < |table| && table[k].id == id
  }

  /** Ids are keys: no two rows share one. */
  predicate UniqueIds(table: seq<Venue>)
  {
    forall i, j :: 0 <= i < j < |table| ==> table[i].id != table[j].id
  }

  /** `select * where id = <id>`, as `.single()` reads it: the row, or none. */
  function FindById(table: seq<Venue>, id: Id): (r: Option<Venue>)
    ensures r.Some? ==> r.value in table && r.value.id == id
    ensures r.None? <==> !HasId(table, id)
  {
    if table == [] then None
    else if table[0].id == id then Some(table[0])
    else
      var r := FindById(table[1..], id);
      assert HasId(table, id) ==> HasId(table[1..], id) by {
        if HasId(table, id) {
          var k :| 0 <= k < |table| && table[k].id == id;
          assert table[1..][k - 1].id == id;
        }
      }
      assert HasId(table[1..], id) ==> HasId(table, id) by {
        if HasId(table[1..], id) {
          var k :| 0 <= k < |table[1..]| && table[1..][k].id == id;
          assert table[k + 1].id == id;
        }
      }
      r
  }

  /** With unique ids the row found is the only row with that id. */
  lemma FindByIdUnique(table: seq<Venue>, id: Id, v: Venue)
    requires UniqueIds(table)
    requires v in table && v.id == id
    ensures FindById(table, id) == Some(v)
  {
    var i :| 0 <= i < |table| && table[i] == v;
    var w := FindById(table, id).value;
    var j :| 0 <= j < |table| && table[j] == w;
    assert i == j;
  }

  /** With unique ids, selecting by an id that occurs gives exactly its one row. */
  lemma {:induction false} SelectByIdSingle(table: seq<Venue>, id: Id)
    requires UniqueIds(table) && HasId(table, id)
    ensures Filter(table, IdIs(id)) == [FindById(table, id).value]
  {
    if table[0].id == id {
      forall v | v in table[1..] ensures !IdIs(id)(v) {
        var j :| 0 <= j < |table[1..]| && table[1..][j] == v;
        assert table[j + 1] == v;
      }
      FilterKeepsNone(table[1..], IdIs(id));
    } else {
      var k :| 0 <= k < |table| && table[k].id == id;
      assert table[1..][k - 1].id == id;
      SelectByIdSingle(table[1..], id);
    }
  }

  /** The table after `update(patch).eq("id", id)`: matching rows patched, the rest as they were. */
  function UpdateById(table: seq<Venue>, id: Id, p: VenuePatch): (r: seq<Venue>)
    ensures |r| == |table|
  {
    seq(|table|, i requires 0 <= i < |table| =>
      if table[i].id == id then table[i].(data := Patched(table[i].data, p)) else table[i])
  }

  /** A partial update touches only the supplied columns of the row with that id:
      ids, creation times and every other row stay as they were. */
  lemma UpdateByIdEffect(table: seq<Venue>, id: Id, p: VenuePatch)
    ensures forall i :: 0 <= i < |table| ==>
      && UpdateById(table, id, p)[i].id == table[i].id
      && UpdateById(table, id, p)[i].createdAt == table[i].createdAt
      && (table[i].id != id ==> UpdateById(table, id, p)[i] == table[i])
      && (table[i].id == id ==> UpdateById(table, id, p)[i].data == Patched(table[i].data, p))
  {
  }

  /** Updating keeps the ids unique, and reading the row back gives the patched row. */
  lemma UpdateThenFind(table: seq<Venue>, id: Id, p: VenuePatch, v: Venue)
    requires UniqueIds(table)
    requires FindById(table, id) == Some(v)
    ensures UniqueIds(UpdateById(table, id, p))
    ensures FindById(UpdateById(table, id, p), id) == Some(v.(data := Patched(v.data, p)))
  {
    var t := UpdateById(table, id, p);
    var i :| 0 <= i < |table| && table[i] == v;
    assert t[i] == v.(data := Patched(v.data, p));
    FindByIdUnique(t, id, t[i]);
  }

  function IdIs(id: Id): Venue -> bool
  {
    (v: Venue) => v.id == id
  }

  function IdIsNot(id: Id): Venue -> bool
  {
    (v: Venue) => v.id != id
  }

  /** Removing rows keeps the remaining ids unique. */
  lemma {:induction false} FilterUniqueIds(table: seq<Venue>, p: Venue -> bool)
    requires UniqueIds(table)
    ensures UniqueIds(Filter(table, p))
  {
    if table != [] {
      FilterUniqueIds(table[1..], p);
      var rest := Filter(table[1..], p);
      forall i | 0 <= i < |rest| ensures rest[i].id != table[0].id {
        var j :| 0 <= j < |table[1..]| && table[1..][j] == rest[i];
        assert table[j + 1] == rest[i];
      }
    }
  }

  /** A new row whose fresh id is found again, with every supplied column unchanged. */
  lemma InsertThenFind(table: seq<Venue>, v: Venue)
    requires UniqueIds(table) && !HasId(table, v.id)
    ensures UniqueIds(table + [v])
    ensures FindById(table + [v], v.id) == Some(v)
  {
    var t := table + [v];
    assert t[|table|] == v;
    forall i, j | 0 <= i < j < |t| ensures t[i].id != t[j].id {
      if j == |table| {
        assert t[i] == table[i];
      }
    }
    FindByIdUnique(t, v.id, v);
  }

  /** After deleting by id no row with that id is left, so a lookup fails; the removed
      rows are exactly the rows that had it. */
  lemma DeleteThenFind(table: seq<Venue>, id: Id)
    ensures FindById(Filter(table, IdIsNot(id)), id) == None
    ensures forall v :: v in Filter(table, IdIs(id)) <==> v in table && v.id == id
  {
    forall v ensures v in Filter(table, IdIs(id)) <==> v in table && v.id == id {
      FilterMembership(table, IdIs(id), v);
    }
  }

  // ----- The list filters of getVenues -----

  /** The search condition: name, address or description contains the trimmed term,
      ignoring case; a missing description never matches. */
  predicate MatchesSearchTerm(v: Venue, term: string)
  {
    || ContainsIgnoringCase(v.data.name, term)
    || ContainsIgnoringCase(v.data.address, term)
    || (v.data.description.Some? && ContainsIgnoringCase(v.data.description.value, term))
  }

  /** The search text restricts the list only when it is present and not blank. */
  predicate MatchesSearch(v: Venue, search: Option<string>)
  {
    search.Some? && Supplied(search.value) ==> MatchesSearchTerm(v, Trim(search.value))
  }

  /** The city filter restricts the list only when it is present and not blank. */
  predicate MatchesCity(v: Venue, city: Option<string>)
  {
    city.Some? && Supplied(city.value) ==> ContainsIgnoringCase(v.data.city, Trim(city.value))
  }

  /** One condition the query builder adds. */
  datatype VenueCondition =
    | TextSearch(term: string)   // name, address or description ilike %term%
    | CityLike(term: string)     // city ilike %term%

  predicate Satisfies(v: Venue, c: VenueCondition)
  {
    match c
    case TextSearch(term) => MatchesSearchTerm(v, term)
    case CityLike(term) => ContainsIgnoringCase(v.data.city, term)
  }

  /** The conditions of one query are joined by AND. */
  predicate SatisfiesAll(v: Venue, conditions: seq<VenueCondition>)
  {
    conditions == [] || (Satisfies(v, conditions[0]) && SatisfiesAll(v, conditions[1..]))
  }

  function MeetsConditions(conditions: seq<VenueCondition>): Venue -> bool
  {
    (v: Venue) => SatisfiesAll(v, conditions)
  }

  function CreatedAt(v: Venue): string
  {
    v.createdAt
  }

  /** What the store answers: the rows meeting every condition, newest first. */
  function RunQuery(table: seq<Venue>, conditions: seq<VenueCondition>): (r: seq<Venue>)
    ensures SortedBy(r, CreatedAt, true)
    ensures multiset(r) == multiset(Filter(table, MeetsConditions(conditions)))
  {
    SortBy(Filter(table, MeetsConditions(conditions)), CreatedAt, true)
  }

  /** The independent statement of the getVenues filter. */
  function MatchesFilters(search: Option<string>, city: Option<string>): Venue -> bool
  {
    (v: Venue) => MatchesSearch(v, search) && MatchesCity(v, city)
  }

  /** Conditions joined by AND: a query with more conditions keeps fewer rows. */
  lemma {:induction false} SatisfiesAllAppend(v: Venue, a: seq<VenueCondition>, b: seq<VenueCondition>)
    ensures SatisfiesAll(v, a + b) == (SatisfiesAll(v, a) && SatisfiesAll(v, b))
  {
    if a == [] {
      assert a + b == b;
    } else {
      assert (a + b)[1..] == a[1..] + b;
      SatisfiesAllAppend(v, a[1..], b);
    }
  }

  /** The condition the search text adds, when it is supplied. */
  function SearchCondition(search: Option<string>): seq<VenueCondition>
  {
    if search.Some? && Supplied(search.value) then [TextSearch(Trim(search.value))] else []
  }

  /** The condition the city filter adds, when it is supplied. */
  function CityCondition(city: Option<string>): seq<VenueCondition>
  {
    if city.Some? && Supplied(city.value) then [CityLike(Trim(city.value))] else []
  }

  lemma SearchConditionAgrees(v: Venue, search: Option<string>)
    ensures SatisfiesAll(v, SearchCondition(search)) == MatchesSearch(v, search)
  {
    if search.Some? && Supplied(search.value) {
      assert SatisfiesAll(v, SearchCondition(search)) == Satisfies(v, TextSearch(Trim(search.value)));
    }
  }

  lemma CityConditionAgrees(v: Venue, city: Option<string>)
    ensures SatisfiesAll(v, CityCondition(city)) == MatchesCity(v, city)
  {
    if city.Some? && Supplied(city.value) {
      assert SatisfiesAll(v, CityCondition(city)) == Satisfies(v, CityLike(Trim(city.value)));
    }
  }

  /** The conditions getVenues builds select exactly the rows the filter describes. */
  lemma BuiltConditionsAgree(search: Option<string>, city: Option<string>)
    ensures forall v :: MeetsConditions(SearchCondition(search) + CityCondition(city))(v)
                        == MatchesFilters(search, city)(v)
  {
    forall v ensures SatisfiesAll(v, SearchCondition(search) + CityCondition(city))
                     == (MatchesSearch(v, search) && MatchesCity(v, city)) {
      SatisfiesAllAppend(v, SearchCondition(search), CityCondition(city));
      SearchConditionAgrees(v, search);
      CityConditionAgrees(v, city);
    }
  }

  /** Running the built query gives the rows the filter describes, newest first. */
  lemma RunQueryMatchesFilters(table: seq<Venue>, search: Option<string>, city: Option<string>)
    ensures var r := RunQuery(table, SearchCondition(search) + CityCondition(city));
      && SortedBy(r, CreatedAt, true)
      && multiset(r) == multiset(Filter(table, MatchesFilters(search, city)))
      && forall v :: v in r <==> v in table && MatchesSearch(v, search) && MatchesCity(v, city)
  {
    var query := SearchCondition(search) + CityCondition(city);
    var r := RunQuery(table, query);
    BuiltConditionsAgree(search, city);
    FilterCongruent(table, MeetsConditions(query), MatchesFilters(search, city));
    forall v ensures v in r <==> v in table && MatchesSearch(v, search) && MatchesCity(v, city) {
      assert v in r <==> v in multiset(r);
      FilterMembership(table, MatchesFilters(search, city), v);
    }
  }
}

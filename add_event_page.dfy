/** The logic of the "Create New Event" page: the form record and its field updates, the
    venue checkboxes, the narrowing of fetched venues to the user's own, the combination
    of the chosen venues into `venue_ids`, and the guard against a second submission. */
module AddEventPage {
  import opened Wrappers
  import opened Seqs
  import opened Ordering
  import opened VenueModel
  import opened EventModel
  import opened Store
  import VenueActions
  import EventActions

  /** The page's `formData` state. */
  datatype FormData = FormData(
    name: string,
    description: string,
    startDate: string,
    endDate: string,
    primaryVenueId: string,
    otherVenueIds: seq<Id>,
    sportType: string)

  const EmptyForm := FormData("", "", "", "", "", [], "")

  /** The `name` attributes of the inputs wired to `handleChange`. */
  datatype FormField = Name | Description | StartDate | EndDate | PrimaryVenueId | SportType

  function FieldValue(f: FormData, k: FormField): string
  {
    match k
    case Name => f.name
    case Description => f.description
    case StartDate => f.startDate
    case EndDate => f.endDate
    case PrimaryVenueId => f.primaryVenueId
    case SportType => f.sportType
  }

  /** `{ ...formData, [e.target.name]: e.target.value }`: the named field takes the value,
      every other field keeps its own. */
  function WithField(f: FormData, k: FormField, value: string): (r: FormData)
    ensures FieldValue(r, k) == value
    ensures forall other :: other != k ==> FieldValue(r, other) == FieldValue(f, other)
    ensures r.otherVenueIds == f.otherVenueIds
  {
    match k
    case Name => f.(name := value)
    case Description => f.(description := value)
    case StartDate => f.(startDate := value)
    case EndDate => f.(endDate := value)
    case PrimaryVenueId => f.(primaryVenueId := value)
    case SportType => f.(sportType := value)
  }

  // ----- Checkboxes of the "other venues" -----

  function NotEqualTo(id: Id): Id -> bool
  {
    (x: Id) => x != id
  }

  /** A checkbox change: checking appends the venue's id, unchecking removes every
      occurrence of it. */
  function ToggledOthers(others: seq<Id>, venueId: Id, checked: bool): seq<Id>
  {
    if checked then others + [venueId] else Filter(others, NotEqualTo(venueId))
  }

  /** Unchecking removes the id and keeps the other ids in their order. */
  lemma {:induction false} UncheckRemovesEveryOccurrence(others: seq<Id>, venueId: Id)
    ensures venueId !in ToggledOthers(others, venueId, false)
    ensures forall x :: x in others && x != venueId ==> x in ToggledOthers(others, venueId, false)
  {
    FilterMembership(others, NotEqualTo(venueId), venueId);
    forall x | x in others && x != venueId ensures x in ToggledOthers(others, venueId, false) {
      FilterMembership(others, NotEqualTo(venueId), x);
    }
  }

  /** The checkbox shows `other_venue_ids.includes(id)`, so a click checks it exactly when
      the id is absent. Clicking therefore keeps the list free of duplicates. */
  lemma ClickKeepsDistinct(others: seq<Id>, venueId: Id, checked: bool)
    requires NoDuplicates(others) && checked == (venueId !in others)
    ensures NoDuplicates(ToggledOthers(others, venueId, checked))
  {
    if !checked {
      FilterNoDuplicates(others, NotEqualTo(venueId));
    } else {
      var r := others + [venueId];
      forall i, j | 0 <= i < j < |r| ensures r[i] != r[j] {
        if j == |others| {
          assert r[i] == others[i];
        }
      }
    }
  }

  // ----- Venues offered on the page -----

  function OwnedBy(user: Option<Id>): Venue -> bool
  {
    (v: Venue) => user.Some? && v.data.createdBy == user.value
  }

  /** `result.data.filter(venue => venue.created_by === user?.id)`; with no user nothing
      matches. */
  function OwnedVenues(fetched: seq<Venue>, user: Option<Id>): seq<Venue>
  {
    Filter(fetched, OwnedBy(user))
  }

  /** The offered venues are exactly the fetched venues the user created, in fetched order. */
  lemma OwnedVenuesExact(fetched: seq<Venue>, user: Option<Id>)
    ensures forall v :: v in OwnedVenues(fetched, user) <==>
      v in fetched && user.Some? && v.data.createdBy == user.value
    ensures user.None? ==> OwnedVenues(fetched, user) == []
    ensures SortedBy(fetched, CreatedAt, true) ==> SortedBy(OwnedVenues(fetched, user), CreatedAt, true)
  {
    forall v ensures v in OwnedVenues(fetched, user) <==> v in fetched && user.Some? && v.data.createdBy == user.value {
      FilterMembership(fetched, OwnedBy(user), v);
    }
    if user.None? {
      FilterKeepsNone(fetched, OwnedBy(user));
    }
    if SortedBy(fetched, CreatedAt, true) {
      FilterKeepsSorted(fetched, OwnedBy(user), CreatedAt, true);
    }
  }

  // ----- Combining the chosen venues -----

  /** The primary venue first (when one is chosen), then the other venues in their
      order, without the primary. */
  function CombinedVenueIds(primary: Id, others: seq<Id>): seq<Id>
  {
    (if primary != "" then [primary] else []) + Filter(others, NotEqualTo(primary))
  }

  /** The `allVenueIds` loop of `handleSubmit`. */
  method CombineVenueIds(primary: Id, others: seq<Id>) returns (allVenueIds: seq<Id>)
    ensures allVenueIds == CombinedVenueIds(primary, others)
  {
    ghost var keep := NotEqualTo(primary);
    allVenueIds := [];
    if primary != "" {
      allVenueIds := allVenueIds + [primary];
    }
    ghost var head := allVenueIds;
    for i := 0 to |others|
      invariant allVenueIds == head + Filter(others[..i], keep)
    {
      FilterSnoc(others, i, keep);
      if others[i] != primary {
        allVenueIds := allVenueIds + [others[i]];
      }
    }
    assert others[..|others|] == others;
  }

  /** A chosen primary venue is element 0 and occurs nowhere else. */
  lemma PrimaryFirstAndOnce(primary: Id, others: seq<Id>)
    requires primary != ""
    ensures var all := CombinedVenueIds(primary, others);
      |all| > 0 && all[0] == primary && primary !in all[1..]
  {
    var all := CombinedVenueIds(primary, others);
    assert all[1..] == Filter(others, NotEqualTo(primary));
    FilterMembership(others, NotEqualTo(primary), primary);
  }

  /** Every id consists of the primary or of another chosen id different from it, and
      each chosen id is kept. */
  lemma CombinedMembers(primary: Id, others: seq<Id>)
    ensures forall x :: x in CombinedVenueIds(primary, others) <==>
      (x == primary && primary != "") || (x in others && x != primary)
  {
    forall x ensures x in CombinedVenueIds(primary, others) <==>
      (x == primary && primary != "") || (x in others && x != primary) {
      FilterMembership(others, NotEqualTo(primary), x);
    }
  }

  /** No venue chosen gives an empty list, hence no junction rows. */
  lemma NothingChosenNoAssociations(eventId: Id)
    ensures CombinedVenueIds("", []) == []
    ensures AssociationRows(eventId, CombinedVenueIds("", [])) == []
  {
  }

  /** Duplicate-free other venues give a duplicate-free `venue_ids`. */
  lemma CombinedNoDuplicates(primary: Id, others: seq<Id>)
    requires NoDuplicates(others)
    ensures NoDuplicates(CombinedVenueIds(primary, others))
  {
    var rest := Filter(others, NotEqualTo(primary));
    FilterNoDuplicates(others, NotEqualTo(primary));
    if primary != "" {
      FilterMembership(others, NotEqualTo(primary), primary);
      ConsNoDuplicates(primary, rest);
    }
  }

  /** The junction rows written for the page's choice: the chosen primary is the one primary
      row; with no primary chosen, the first checked venue becomes primary. */
  lemma ChosenPrimaryIsPrimaryRow(eventId: Id, primary: Id, others: seq<Id>)
    ensures var all := CombinedVenueIds(primary, others);
      && (primary != "" ==> AssociationRows(eventId, all)[0] == EventVenue(eventId, primary, true)
                            && PrimaryCount(AssociationRows(eventId, all)) == 1)
      && (primary == "" && others != [] && others[0] != "" ==>
            AssociationRows(eventId, all)[0] == EventVenue(eventId, others[0], true))
  {
    var all := CombinedVenueIds(primary, others);
    ExactlyOnePrimary(eventId, all);
    if primary == "" && others != [] && others[0] != "" {
      assert others == [others[0]] + others[1..];
      FilterAppend([others[0]], others[1..], NotEqualTo(primary));
      assert all[0] == others[0];
    }
  }

  /** Reading back an event created from the page: the chosen primary venue is listed
      first, flagged primary, and is the event's `primary_venue`. */
  lemma ChosenPrimaryReadsBack(venues: seq<Venue>, links: seq<EventVenue>, e: Event, primary: Id, others: seq<Id>)
    requires primary != ""
    requires RowsFor(links, e.id) == AssociationRows(e.id, CombinedVenueIds(primary, others))
    ensures var view := View(venues, links, e);
      && |view.venues| > 0
      && view.venues[0] == FlatVenue(LookupSummary(venues, primary), true)
      && view.primaryVenue == LookupSummary(venues, primary)
  {
    var all := CombinedVenueIds(primary, others);
    PrimaryFirstAndOnce(primary, others);
    ReadBackAssociations(venues, links, e, all);
  }

  // ----- Submitting -----

  /** `value || undefined`: an empty optional field is left out. */
  function OrUndefined(s: string): Option<string>
  {
    if s == "" then None else Some(s)
  }

  /** The `eventData` built by `handleSubmit` from the form, the user and the combined ids. */
  function SubmittedInput(f: FormData, userId: Id, venueIds: seq<Id>): EventInput
  {
    EventInput(
      EventData(f.name, OrUndefined(f.description), f.startDate, OrUndefined(f.endDate), None, f.sportType, userId),
      Some(venueIds))
  }

  const FailedToCreateMessage := "Failed to create event"
  const UnexpectedErrorMessage := "An unexpected error occurred"

  /** `result.error || "Failed to create event"`: the error text, or the fallback when
      it is empty. */
  function ShownError(error: string): (message: string)
    ensures message != ""
    ensures error != "" ==> message == error
    ensures error == "" ==> message == FailedToCreateMessage
  {
    if error == "" then FailedToCreateMessage else error
  }

  /** What the user sees after a submit: nothing (a duplicate submit), the dashboard
      after a success toast, or an error toast. */
  datatype SubmitOutcome = Ignored | Created(event: Event) | Rejected(message: string)

  class AddEventForm {
    var formData: FormData
    var venues: seq<Venue>
    var loading: bool
    var initialLoading: bool

    constructor ()
      ensures formData == EmptyForm && venues == [] && !loading && initialLoading
    {
      formData, venues, loading, initialLoading := EmptyForm, [], false, true;
    }

    /** `fetchVenues`: all venues are fetched, then narrowed to the user's own; on a
        failure the offered venues stay as they were. Either way loading ends. */
    method FetchVenues(db: Database, user: Option<Id>, storeError: Option<string>)
      modifies this
      ensures formData == old(formData) && loading == old(loading) && !initialLoading
      ensures storeError.Some? ==> venues == old(venues)
      ensures storeError.None? ==>
        && SortedBy(venues, CreatedAt, true)
        && forall v :: v in venues <==> v in db.venues && user.Some? && v.data.createdBy == user.value
    {
      var result := VenueActions.GetVenues(db, None, None, storeError);
      if result.Success? {
        OwnedVenuesExact(result.data, user);
        forall v ensures v in result.data <==> v in db.venues {
          assert MatchesSearch(v, None) && MatchesCity(v, None);
        }
        venues := OwnedVenues(result.data, user);
      }
      initialLoading := false;
    }

    /** The mount effect: venues are fetched only once a user is signed in. */
    method OnUserChange(db: Database, user: Option<Id>, storeError: Option<string>)
      modifies this
      ensures user.None? ==> venues == old(venues) && initialLoading == old(initialLoading)
      ensures user.Some? ==> !initialLoading
      ensures user.Some? && storeError.None? ==>
        && SortedBy(venues, CreatedAt, true)
        && forall v :: v in venues <==> v in db.venues && v.data.createdBy == user.value
      ensures user.Some? && storeError.Some? ==> venues == old(venues)
      ensures formData == old(formData) && loading == old(loading)
    {
      if user.Some? {
        FetchVenues(db, user, storeError);
      }
    }

    /** `handleChange`. */
    method HandleChange(field: FormField, value: string)
      modifies this
      ensures formData == WithField(old(formData), field, value)
      ensures venues == old(venues) && loading == old(loading) && initialLoading == old(initialLoading)
    {
      formData := WithField(formData, field, value);
    }

    /** The `onChange` of one "other venue" checkbox. */
    method HandleVenueCheckbox(venueId: Id, checked: bool)
      modifies this
      ensures formData == old(formData).(otherVenueIds := ToggledOthers(old(formData.otherVenueIds), venueId, checked))
      ensures venues == old(venues) && loading == old(loading) && initialLoading == old(initialLoading)
    {
      formData := formData.(otherVenueIds := ToggledOthers(formData.otherVenueIds, venueId, checked));
    }

    /** `handleSubmit`: ignored while a submission is outstanding; otherwise `loading` is
        raised, the event is created, and `loading` is lowered again only on failure (on
        success the page navigates away). Without a signed-in user, reading its id throws
        and the generic error is shown. */
    method HandleSubmit(db: Database, user: Option<Id>, newId: Id, now: string,
                        eventError: Option<string>, venuesError: Option<string>)
      returns (outcome: SubmitOutcome)
      requires db.Valid()
      requires !HasEventId(db.events, newId) && RowsFor(db.eventVenues, newId) == []
      modifies this, db
      ensures db.Valid()
      ensures formData == old(formData) && venues == old(venues) && initialLoading == old(initialLoading)
      ensures old(loading) ==>
        && outcome == Ignored && loading
        && db.venues == old(db.venues) && db.events == old(db.events) && db.eventVenues == old(db.eventVenues)
      ensures !old(loading) && user.None? ==>
        && outcome == Rejected(UnexpectedErrorMessage) && !loading
        && db.venues == old(db.venues) && db.events == old(db.events) && db.eventVenues == old(db.eventVenues)
      ensures db.venues == old(db.venues)
      ensures forall other :: other != newId ==> RowsFor(db.eventVenues, other) == RowsFor(old(db.eventVenues), other)
      ensures outcome.Rejected? ==> db.eventVenues == old(db.eventVenues)
      ensures !old(loading) && user.Some? ==>
        var ids := CombinedVenueIds(old(formData).primaryVenueId, old(formData).otherVenueIds);
        var input := SubmittedInput(old(formData), user.value, ids);
        && (eventError.None? ==> db.events == old(db.events) + [Event(newId, now, input.data)])
        && (eventError.Some? ==> db.events == old(db.events))
        && (outcome.Created? <==> eventError.None? && (ids == [] || venuesError.None?))
        && (outcome.Created? ==>
              && outcome.event == Event(newId, now, input.data)
              && RowsFor(db.eventVenues, newId) == AssociationRows(newId, ids)
              && loading)
        && (eventError.Some? ==> outcome == Rejected(ShownError(eventError.value)))
        && (eventError.None? && ids != [] && venuesError.Some? ==> outcome == Rejected(ShownError(venuesError.value)))
        && (outcome.Rejected? ==> !loading && outcome.message != "")
      ensures outcome.Ignored? <==> old(loading)
    {
      if loading {
        return Ignored;
      }
      loading := true;
      var allVenueIds := CombineVenueIds(formData.primaryVenueId, formData.otherVenueIds);
      if user.None? {
        loading := false;
        return Rejected(UnexpectedErrorMessage);
      }
      var input := SubmittedInput(formData, user.value, allVenueIds);
      var result := EventActions.CreateEvent(db, input, newId, now, eventError, venuesError);
      if result.Success? {
        return Created(result.data);
      }
      loading := false;
      return Rejected(ShownError(result.error));
    }
  }
}

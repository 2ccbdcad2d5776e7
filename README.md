# Sports events and venues: a Dafny model

This project models the core of a small web application for sports events and the
venues that host them. It covers four parts:

- **Event actions.** These are the server actions in `src/lib/actions/events.ts`. They
  create events and link each event to an ordered list of venues through an
  `event_venues` junction table. The first linked venue is the primary one. The actions
  also list events by search text and sport, ordered by start date. Each listed event is
  flattened into a `venues` list and a `primary_venue`. Other actions fetch one event,
  update an event (its links are replaced wholesale) and delete an event.
- **Venue actions.** These are the server actions in `src/lib/actions/venues.ts`:
  create, list, get by id, partial update and delete. The list filters by search text
  and city and is ordered newest first.
- **Add-event page.** This is the logic of `src/app/events/add/page.tsx`:
  - the form record and its field updates;
  - the "other venues" checkboxes;
  - narrowing the fetched venues to the signed-in user's own;
  - combining the primary and other venues into `venue_ids`;
  - the guard against a second submission while one is outstanding.
- **Confirmation dialog.** This is the state record of
  `src/hooks/useConfirmationModal.ts` and its three updates.

The hosted database is the class `Store.Database`. It holds three tables as sequences.
Its invariant `Valid()` says that ids are keys. Each action is a method over the
database. Every call the action makes to the store either succeeds or answers with an
error message. That message is a parameter (`storeError`, `eventError`, …), so every
error path of the code is a branch of the model. The store generates ids and
`created_at` values; these are parameters too, and a new id must be fresh. The sorting,
filtering, joining and flattening that the store and the code perform are pure
functions. Lemmas about those functions state what the actions promise.

Modules:

- `Wrappers`: `Option` and `Result`.
- `Text`: JavaScript `trim`, ASCII lower-casing, and substring containment.
- `Seqs`: a generic `Filter` and its laws.
- `Ordering`: lexicographic string order and an insertion sort by key.
- `VenueModel` and `EventModel`: rows, patches, lookups, junction rows, flattening and
  the list filters.
- `Store`: the database class.
- `VenueActions` and `EventActions`: the server actions.
- `AddEventPage`: the page, with the class `AddEventForm` for its state.
- `ConfirmationModal`: the dialog, with the class `ConfirmationModalHook`.

## Model

| member | source | states |
|---|---|---|
| Text.TrimStart | src/lib/actions/venues.ts:48 | The result is a suffix of the input. Every removed character is white space. The result is empty or starts with a non-space. |
| Text.TrimEnd | src/lib/actions/venues.ts:48 | The result is a prefix of the input. Every removed character is white space. The result is empty or ends with a non-space. |
| Text.BlankIffAllSpace | src/lib/actions/venues.ts:48 | A filter value counts as absent (`s.trim()` is empty) exactly when every character is white space. |
| Text.TrimShape | src/lib/actions/venues.ts:49 | The trimmed term has no white space at either end and occurs in the input. |
| Text.Trim | src/lib/actions/venues.ts:48-49 | `s.trim()`: leading then trailing white space removed. Its shape is proved in `Text.TrimShape` and `Text.BlankIffAllSpace`. |
| Text.Lower | src/lib/actions/venues.ts:51-57 | The lower-cased text `ilike` compares; one character per character, with ASCII letters mapped. |
| Text.ContainsIgnoringCase | src/lib/actions/venues.ts:51-57 | `column ilike '%term%'`: the lower-cased term occurs in the lower-cased column (see `Text.Contains`). |
| Text.Contains | src/lib/actions/venues.ts:49-51 | True exactly when the needle occurs at some position of the text. This is the meaning of `%term%`. |
| Text.ContainsIgnoringCaseOfLower | src/lib/actions/venues.ts:57 | `ilike` ignores case on the term side: a term and its lower-case spelling match the same rows. |
| Ordering.LexLeTotal | src/lib/actions/venues.ts:60-62 | The order used for `created_at`/`start_date` is total. |
| Ordering.LexLeTransitive | src/lib/actions/venues.ts:60-62 | The order is transitive. |
| Ordering.LexLeAntisymmetric | src/lib/actions/venues.ts:60-62 | The order is antisymmetric. |
| Ordering.SortBy | src/lib/actions/venues.ts:60-62 | `order(column)`: the result is sorted by the key in the requested direction and is a permutation of the input. |
| Ordering.FilterKeepsSorted | src/app/events/add/page.tsx:41-43 | Filtering a sorted list leaves it sorted, so the owner filter keeps the fetched order. |
| VenueModel.Patched | src/lib/actions/venues.ts:106-111 | The columns after `update(venueData)`: each supplied column takes its new value, the others keep theirs. Its laws are the four lemmas below. |
| VenueModel.CityPatchChangesOnlyCity | src/lib/actions/venues.ts:102-111 | A partial update that supplies only the city changes the city and no other column. |
| VenueModel.EmptyPatchIsIdentity | src/lib/actions/venues.ts:102-111 | A partial update that supplies nothing leaves the row's columns as they were. |
| VenueModel.PatchedIdempotent | src/lib/actions/venues.ts:102-111 | Applying the same partial update twice gives the same row as applying it once. |
| VenueModel.PatchedCompose | src/lib/actions/venues.ts:102-111 | Two partial updates in a row equal one update in which the later value of each column wins. |
| VenueModel.FindById | src/lib/actions/venues.ts:82-86 | Any row found has the id and is in the table. Nothing is found exactly when no row has the id. |
| VenueModel.FindByIdUnique | src/lib/actions/venues.ts:82-86 | With unique ids, any row carrying the id is the one found. |
| VenueModel.SelectByIdSingle | src/lib/actions/venues.ts:82-86 | With unique ids, selecting an id that occurs gives exactly one row, as `.single()` requires. |
| VenueModel.UpdateByIdEffect | src/lib/actions/venues.ts:106-111 | The update patches only the row with the id. Ids, creation times and all other rows are unchanged. |
| VenueModel.UpdateById | src/lib/actions/venues.ts:106-111 | The table after `update(...).eq("id", id)`: same length; its effect is stated in `VenueModel.UpdateByIdEffect`. |
| VenueModel.UpdateThenFind | src/lib/actions/venues.ts:106-111 | The update keeps ids unique. Reading the id back gives the patched row. |
| VenueModel.FilterUniqueIds | src/lib/actions/venues.ts:132-136 | Removing rows keeps ids unique. |
| VenueModel.InsertThenFind | src/lib/actions/venues.ts:20-24 | Inserting a row with a fresh id keeps ids unique. The lookup then returns that row with its columns as supplied. |
| VenueModel.DeleteThenFind | src/lib/actions/venues.ts:132-136 | After a delete by id, a lookup of the id fails. A row is returned as deleted if and only if it was in the table and has that id. |
| VenueModel.RunQuery | src/lib/actions/venues.ts:45-62 | The store's answer is newest first and holds exactly the rows meeting every condition, with their multiplicities. |
| VenueModel.SatisfiesAllAppend | src/lib/actions/venues.ts:50-57 | The conditions added to one query combine with AND. |
| VenueModel.SearchConditionAgrees | src/lib/actions/venues.ts:48-53 | The search condition keeps rows whose name, address or description contains the trimmed term, ignoring case. A blank or absent search adds no condition. |
| VenueModel.CityConditionAgrees | src/lib/actions/venues.ts:56-58 | The city condition keeps rows whose city contains the trimmed term, ignoring case. A blank or absent city adds no condition. |
| VenueModel.BuiltConditionsAgree | src/lib/actions/venues.ts:45-58 | The query built by the code selects exactly the rows that meet both filters. |
| VenueModel.RunQueryMatchesFilters | src/lib/actions/venues.ts:45-62 | The listed venues are sorted newest first. They are exactly the venues matching the search and the city, each once per occurrence in the table. |
| EventModel.PatchedEvent | src/lib/actions/events.ts:207-215 | The event columns after `update(eventDataWithoutVenues)`, with `venue_ids` stripped off; see `EventModel.PatchedEventFields`. |
| EventModel.UpdateEventById | src/lib/actions/events.ts:210-215 | The events table after the update by id; see `EventModel.UpdateEventThenFind`. |
| EventModel.PatchedEventFields | src/lib/actions/events.ts:207-215 | An event update changes exactly the supplied columns. |
| EventModel.FindEvent | src/lib/actions/events.ts:149-167 | Any event found has the id and is in the table. Nothing is found exactly when no event has the id. |
| EventModel.FindEventUnique | src/lib/actions/events.ts:149-167 | With unique ids, any event carrying the id is the one found. |
| EventModel.UpdateEventThenFind | src/lib/actions/events.ts:210-215 | The update keeps ids unique. Reading the id back gives the patched event. |
| EventModel.FilterUniqueEventIds | src/lib/actions/events.ts:260-264 | Removing events keeps ids unique. |
| EventModel.InsertEventThenFind | src/lib/actions/events.ts:37-41 | Inserting an event with a fresh id keeps ids unique. The lookup then returns that event. |
| EventModel.AssociationRows | src/lib/actions/events.ts:50-54 | The junction rows `venue_ids.map((venue_id, index) => ...)`; its shape is proved in `EventModel.AssociationRowsShape` and `EventModel.ExactlyOnePrimary`. |
| EventModel.AssociationRowsShape | src/lib/actions/events.ts:50-54 | There is one junction row per id, in the given order, each for the new event. Row i is primary if and only if i = 0. |
| EventModel.NoPrimaryCountsZero | src/lib/actions/events.ts:53 | Rows with no primary flag count zero primaries. |
| EventModel.ExactlyOnePrimary | src/lib/actions/events.ts:49-54 | A non-empty id list gives exactly one primary row, and it carries `venue_ids[0]`. An empty list gives no rows. |
| EventModel.RepeatedIdIsKept | src/lib/actions/events.ts:50-54 | The rows are not deduplicated: `[a, a]` gives a primary and a non-primary row for `a`. |
| EventModel.DistinctIdsDistinctVenues | src/lib/actions/events.ts:50-54 | A duplicate-free id list gives rows that name no venue twice. |
| EventModel.AppendAssociationsEffect | src/lib/actions/events.ts:56-58 | Inserting one event's rows appends them to that event's rows. The rows of every other event are unchanged. |
| EventModel.ReplaceAssociations | src/lib/actions/events.ts:224-236 | The junction table after deleting the event's rows and inserting the new ones; see `EventModel.ReplaceAssociationsEffect`. |
| EventModel.ReplaceAssociationsEffect | src/lib/actions/events.ts:222-236 | Delete-then-insert leaves the event with exactly the new rows, in order. The rows of every other event are unchanged. |
| EventModel.ReplaceAssociationsIdempotent | src/lib/actions/events.ts:222-236 | Replacing an event's links twice with the same ids gives the same table as replacing them once. |
| EventModel.FindPrimary | src/lib/actions/events.ts:130-131 | `find(ev => ev.is_primary)` returns the first flagged row. It finds nothing exactly when no row is flagged. |
| EventModel.FlattenVenues | src/lib/actions/events.ts:122-128 | `event_venues?.map(ev => ({...ev.venues, is_primary}))` or `[]`; see `EventModel.TransformVenues`. |
| EventModel.PrimaryVenue | src/lib/actions/events.ts:129-132 | `event_venues?.find(ev => ev.is_primary)?.venues` or null; see `EventModel.PrimaryVenueIsFirstFlagged`. |
| EventModel.Transform | src/lib/actions/events.ts:119-133 | The flattened event: fetched columns plus `venues` and `primary_venue`; see `EventModel.TransformVenues`. |
| EventModel.View | src/lib/actions/events.ts:81-95 | The event as the store embeds and the code flattens it; see `EventModel.ReadBackAssociations`. |
| EventModel.TransformVenues | src/lib/actions/events.ts:119-133 | `venues` has one entry per embedded row, in order, each holding the row's venue and its flag. Missing embedded rows give `[]` and no primary. The event columns pass through. |
| EventModel.PrimaryVenueIsFirstFlagged | src/lib/actions/events.ts:129-132 | `primary_venue` is the venue of the first entry flagged primary. It is null when no entry is flagged. |
| EventModel.Joined | src/lib/actions/events.ts:81-95 | The embedding gives one joined row per junction row. |
| EventModel.ReadBackAssociations | src/lib/actions/events.ts:119-133 | An event whose links were written from `venue_ids` reads back with its venues in that order, only the first flagged. That first venue is `primary_venue`. An empty list reads back as no venues and no primary. |
| EventModel.RunEventQuery | src/lib/actions/events.ts:98-112 | The store's answer is sorted by start date ascending and holds exactly the events meeting every condition. |
| EventModel.Views | src/lib/actions/events.ts:119-133 | There is one view per listed event. |
| EventModel.EventsOf | src/lib/actions/events.ts:119-133 | There is one event per view. |
| EventModel.ViewsShape | src/lib/actions/events.ts:119-133 | The views list the given events in their order, each flattened from its own junction rows. |
| EventModel.ListedEventsMatchFilters | src/lib/actions/events.ts:97-135 | The list getEvents builds is sorted by start date ascending and holds exactly the events matching the search and sport filters, each entry flattened from its own junction rows. |
| EventModel.ListingAgreesWithLookup | src/lib/actions/events.ts:174-187 | With unique ids, each entry of a getEvents listing equals the view getEventById gives for its id, so both agree on `venues` and `primary_venue`. |
| EventModel.SelectEventByIdSingle | src/lib/actions/events.ts:149-167 | With unique ids, selecting an id that occurs gives exactly one event. |
| EventModel.SatisfiesAllEventAppend | src/lib/actions/events.ts:100-107 | The event conditions combine with AND. |
| EventModel.SearchEventConditionAgrees | src/lib/actions/events.ts:98-103 | The search keeps events whose name or description contains the trimmed term, ignoring case. A blank or absent search adds no condition. |
| EventModel.SportConditionAgrees | src/lib/actions/events.ts:106-108 | A non-blank sport keeps events whose `sport_type` equals the value as given. A blank or absent sport adds no condition. |
| EventModel.RunEventQueryMatchesFilters | src/lib/actions/events.ts:97-112 | The listed events are sorted by start date ascending. They are exactly the events matching the search and the sport. |
| Store.Database.Valid | src/lib/actions/venues.ts:82-86 | Ids are keys of the venue and event tables, which `.single()` on an id relies on. |
| Store.Database.constructor | src/lib/actions/venues.ts:82-86 | An empty store satisfies `Valid()`. |
| VenueActions.CreateVenue | src/lib/actions/venues.ts:16-38 | On success it appends one row with the supplied columns, the fresh id and the timestamp, and returns that row. The lookup finds it and the other tables are unchanged. On a store error nothing changes and the error is returned. |
| VenueActions.GetVenues | src/lib/actions/venues.ts:41-76 | The query is built condition by condition. The result is sorted newest first and holds exactly the venues matching both filters. On a store error the error is returned. |
| VenueActions.GetVenueById | src/lib/actions/venues.ts:78-100 | It returns the unique row with the id. With no such row it fails with the `.single()` error, and a store error is returned as is. |
| VenueActions.UpdateVenue | src/lib/actions/venues.ts:102-126 | It patches only the supplied columns of the row with the id and returns the patched row. An absent id fails with nothing changed. Other rows and tables are unchanged. |
| VenueActions.DeleteVenue | src/lib/actions/venues.ts:128-151 | It removes every row with the id and returns the removed rows. No row with the id remains and every other row stays. Junction rows are not touched. |
| EventActions.RequestedIds | src/lib/actions/events.ts:49 | `venue_ids`, with an absent list read as empty; see `EventActions.CreateEvent`. |
| EventActions.CreateEvent | src/lib/actions/events.ts:27-75 | The event row, without `venue_ids`, is appended. If the event insert fails, nothing is written and its error is returned. Otherwise a non-empty list appends first-is-primary junction rows. If the junction insert fails, its error is returned and the event row stays (no rollback). Other events' rows are unchanged. |
| EventActions.GetEvents | src/lib/actions/events.ts:77-143 | The result is sorted by start date ascending and holds exactly the events matching the search and sport filters. Each entry is the event's flattened view. |
| EventActions.GetEventById | src/lib/actions/events.ts:145-197 | It returns the flattened view of the unique event with the id, and fails when there is none. |
| EventActions.UpdateEvent | src/lib/actions/events.ts:199-254 | It patches the event. Absent `venue_ids` leaves the junction rows untouched. Given `venue_ids` deletes the event's rows, then inserts the new ones; an empty list leaves none. The unchecked delete is modelled: failure keeps the old rows and the flow continues. Other events' rows are unchanged. |
| EventActions.DeleteEvent | src/lib/actions/events.ts:256-279 | It removes the event and returns the removed rows. Junction rows are not touched. |
| AddEventPage.WithField | src/app/events/add/page.tsx:116-125 | The named field takes the input's value. Every other field keeps its value. |
| AddEventPage.ToggledOthers | src/app/events/add/page.tsx:279-293 | A checkbox change: append on check, filter out on uncheck; see `AddEventPage.UncheckRemovesEveryOccurrence` and `AddEventPage.ClickKeepsDistinct`. |
| AddEventPage.UncheckRemovesEveryOccurrence | src/app/events/add/page.tsx:288-292 | Unchecking removes every occurrence of the id and keeps every other id. |
| AddEventPage.ClickKeepsDistinct | src/app/events/add/page.tsx:274-293 | The checkbox is checked exactly when the id is present, so a click keeps `other_venue_ids` duplicate-free. |
| AddEventPage.OwnedVenues | src/app/events/add/page.tsx:41-43 | `result.data.filter(venue => venue.created_by === user?.id)`; see `AddEventPage.OwnedVenuesExact`. |
| AddEventPage.OwnedVenuesExact | src/app/events/add/page.tsx:39-45 | The offered venues are exactly the fetched venues whose `created_by` is the user's id, in fetched order. With no user, none are offered. |
| AddEventPage.CombinedVenueIds | src/app/events/add/page.tsx:76-85 | The primary (when chosen) followed by the other ids differing from it; its properties are the lemmas below. |
| AddEventPage.CombineVenueIds | src/app/events/add/page.tsx:76-85 | The `push` loop computes the primary (when chosen) followed by the other ids that differ from it, in order. |
| AddEventPage.PrimaryFirstAndOnce | src/app/events/add/page.tsx:76-85 | A chosen primary is element 0 of `allVenueIds` and occurs nowhere else. |
| AddEventPage.CombinedMembers | src/app/events/add/page.tsx:76-85 | An id is in `allVenueIds` exactly when it is the chosen primary, or another chosen id different from the primary. |
| AddEventPage.NothingChosenNoAssociations | src/app/events/add/page.tsx:76-94 | No primary and no other venues give an empty `venue_ids`, hence no junction rows. |
| AddEventPage.CombinedNoDuplicates | src/app/events/add/page.tsx:76-85 | Duplicate-free other venues give a duplicate-free `allVenueIds`. |
| AddEventPage.ChosenPrimaryIsPrimaryRow | src/app/events/add/page.tsx:76-94 | The chosen primary becomes the one primary junction row. With no primary chosen, the first checked venue becomes primary. |
| AddEventPage.ChosenPrimaryReadsBack | src/app/events/add/page.tsx:76-94 | An event created from the page reads back with the chosen primary first, flagged, and as its `primary_venue`. |
| AddEventPage.SubmittedInput | src/app/events/add/page.tsx:87-95 | The `eventData` of a submit: form fields, empty optional fields as undefined, the user's id and the combined ids. |
| AddEventPage.ShownError | src/app/events/add/page.tsx:106 | `result.error \|\| "Failed to create event"`: never empty, the error itself when it is not empty. |
| AddEventPage.AddEventForm.constructor | src/app/events/add/page.tsx:18-29 | The form starts empty with no venues, not submitting, and loading its venues. |
| AddEventPage.AddEventForm.FetchVenues | src/app/events/add/page.tsx:34-52 | On success the offered venues are exactly the user's own, newest first. On failure they are unchanged. Either way initial loading ends. |
| AddEventPage.AddEventForm.OnUserChange | src/app/events/add/page.tsx:55-60 | Venues are fetched only when a user is signed in. With a user, the initial spinner ends. When the fetch succeeds, the list holds exactly the store's venues created by that user, newest first. When the fetch fails, the list is unchanged. |
| AddEventPage.AddEventForm.HandleChange | src/app/events/add/page.tsx:116-125 | Only the named form field changes. |
| AddEventPage.AddEventForm.HandleVenueCheckbox | src/app/events/add/page.tsx:277-293 | Checking appends the id. Unchecking filters it out. Nothing else changes. |
| AddEventPage.AddEventForm.HandleSubmit | src/app/events/add/page.tsx:62-114 | While `loading`, it returns without touching the store. Otherwise it creates the event from the form. On success `loading` stays true and the event's rows are the combined ids. On failure `loading` is reset and a non-empty message is shown. With no user, the generic error is shown. The venues table never changes, and neither do the junction rows of other events. A rejected submit leaves the junction table as it was. An event or venues error is shown as `result.error \|\| "Failed to create event"`. |
| ConfirmationModal.Shown | src/hooks/useConfirmationModal.ts:26-31 | Showing opens the dialog with every other field equal to the config. |
| ConfirmationModal.Hidden | src/hooks/useConfirmationModal.ts:33-36 | Hiding keeps every field but `isOpen`. The dialog stays open exactly when it was open and loading. |
| ConfirmationModal.WithLoading | src/hooks/useConfirmationModal.ts:38-40 | Only `isLoading` changes. |
| ConfirmationModal.StateDeterminedByConfig | src/hooks/useConfirmationModal.ts:3-12 | A state is determined by `isOpen` and the remaining fields. |
| ConfirmationModal.HideWhileLoadingIsNoOp | src/hooks/useConfirmationModal.ts:34 | While loading, hiding changes nothing. |
| ConfirmationModal.HideIdempotent | src/hooks/useConfirmationModal.ts:33-36 | Hiding twice equals hiding once. |
| ConfirmationModal.HideWhenIdleCloses | src/hooks/useConfirmationModal.ts:35 | When not loading, hiding closes the dialog and changes nothing else. |
| ConfirmationModal.ConfirmFlow | src/hooks/useConfirmationModal.ts:26-40 | Show, set loading, hide (refused), clear loading, hide: the dialog ends closed with the shown configuration. |
| ConfirmationModal.ConfirmationModalHook.constructor | src/hooks/useConfirmationModal.ts:15-24 | The dialog starts closed and not loading, with "Confirm", "Cancel" and the default variant. |
| ConfirmationModal.ConfirmationModalHook.ShowModal | src/hooks/useConfirmationModal.ts:26-31 | The record becomes the shown configuration. |
| ConfirmationModal.ConfirmationModalHook.HideModal | src/hooks/useConfirmationModal.ts:33-36 | While loading, the record is unchanged. Otherwise only `isOpen` becomes false. |
| ConfirmationModal.ConfirmationModalHook.SetLoading | src/hooks/useConfirmationModal.ts:38-40 | Only `isLoading` changes. |

## Left out

- The network and the store client: the store is the in-memory `Database`, and each store error is a parameter.
- `revalidatePath` and `console` logging have no effect on the modelled state and are not modelled.
- Store-generated ids and `created_at` values are parameters, and a new id must be fresh. Timestamps are ISO-8601 strings of one format, compared character by character.
- `ilike` wildcards: `%` and `_` typed by the user are matched literally. Case folding covers only ASCII letters.
- The PostgREST `.or(...)` string syntax: a term containing `,` or `)` would change the query. The model treats the term as text.
- Cascade deletes of junction rows when a venue or event is deleted are done by the database, not by the code. Deletes leave the junction table as it is.
- The order of embedded `event_venues` rows is not fixed by the query. The model uses junction-table order.
- A junction row whose venue no longer exists embeds a null venue. The model represents it as `None`.
- `.single()` failing on zero or several rows returns a fixed message, `Store.NoSingleRowMessage`.
- The thrown value in a failure is always an `Error`, so the fallback messages ("Failed to create event", …) are never reached. They are not modelled on the server side.
- Async timing and races between submissions: event handlers run one at a time, and React's batching and stale closures are not modelled.
- The current user comes from the external auth context; it is a parameter of the page methods.
- `toast` and `router.push` are shown as the outcome: `Created`, `Rejected` with the message, or `Ignored`.
- The confirm callback `onConfirm` is an opaque handle (a natural number). It is stored, never called.
- JSX rendering, the "Loading..." screen and the form's `required` attributes (browser validation) are not modelled.
- `createEvent` does not deduplicate `venue_ids`; `EventModel.RepeatedIdIsKept` shows `[a, a]` giving two rows. The page keeps its lists duplicate-free (`AddEventPage.ClickKeepsDistinct`, `AddEventPage.CombinedNoDuplicates`).
- `end_date >= start_date` is never checked by the code and is not assumed.

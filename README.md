# evently backend services, modelled in Dafny

This project models the domain services of the evently backend: an event-management API with two stores.

**The relational store** holds users, organizers, venues, events, registrations and tickets.

**The document store** holds a feed per event. Each feed has an index of `{type, itemId, ts}` references plus three collections: comments, check-ins and photos. Older feeds may still carry legacy index entries, which hold their payload inline and have no `itemId`.

Both stores are fields of one object, `Services.Store`:
- `tables` holds the six tables as maps from identifiers to rows;
- `feeds` maps an event to its index;
- `docs` holds the three collections;
- `nextId` is the supply of fresh identifiers.

Every service function is a method on that object. A method either returns a value or returns what the service throws, as a `Result`. Each method's postcondition states the whole new state. The order of its guard checks is stated as an if-chain over the old state.

Every method preserves the store invariant `Valid()`, which has these parts:
- every foreign key resolves;
- every unique constraint holds (email, event title and start, user and event, one ticket per registration, and abstract organizer and venue keys);
- every event ends after it starts;
- no event has more ISSUED or USED tickets than its capacity;
- no identifier in either store is at or above the counter.

The modules follow the program's structure:

- `Errors`: `HttpError`, its three factories and the error-handling middleware. The statuses are 400, 404, 409 and 500, as in section 15 of RFC 9110.
- `Schemas`: the zod request schemas of the feed and event routes, over a `Json` request body. Library checks are passed in as a `Formats` record: UUID, email, URL, ObjectId, and `Date`/`Number` string parsing.
- `FeedModel`, `FeedMigration`, `FeedQueries`: the lazy repair of legacy feed entries, stated as a fold that the store's loop is proved equal to. They also hold:
  - resolving references into the feed view;
  - the append and update writes;
  - the two analytics aggregates.
- `Relational`: the tables as values, seat and registration counts, the delete cascade, the invariant and the lemmas that every write keeps it, and the list orders.
- `Text`, `Sorting`: `trim`, `toLowerCase`, string order, and one stable insertion sort used for every `orderBy`, for `$sort` and for `Array.prototype.sort`.
- `Services`: the `Store` class with one method per service function.

A few behaviours of the code are worth knowing. The model states each of them:

- **Event-list query string.** `?upcoming=false` turns the upcoming filter on, because `z.coerce.boolean()` treats any non-empty string as true (`UpcomingFalseStringIsTrue`).
- **Blank names.** A name made only of spaces passes `min(1)` but is stored as the empty string after `trim()` (`BlankTrimsToEmpty`).
- **Check-in analytics.** The check-in counts include documents that no index entry references (`BySource`).
- **Feed lookups.** Resolving the feed looks documents up by identifier only, and does not check their event (`Resolve`).

## Model

| member | source | states |
|---|---|---|
| Errors.NewHttpError | backend/src/utils/httpError.ts:6-9 | the error keeps exactly the given status and message |
| Errors.BadRequest | backend/src/utils/httpError.ts:11-13 | status 400 with the given message |
| Errors.NotFound | backend/src/utils/httpError.ts:15-17 | status 404 with the given message |
| Errors.Conflict | backend/src/utils/httpError.ts:19-21 | status 409 with the given message |
| Errors.HandleError | backend/src/middlewares/errorHandler.ts:6-29 | a validation error gives 400, "Validation failed" and its field details; an HttpError gives its own status and message; any other Error gives 500 with its message; anything else gives 500 "Unknown error" |
| Errors.DetailsOnlyForValidation | backend/src/middlewares/errorHandler.ts:9-28 | a response carries details if and only if the thrown value was a validation error |
| Errors.DomainErrorsAreClientErrors | backend/src/middlewares/errorHandler.ts:16-28 | an error built by a factory reaches the client as 400, 404 or 409 with its message; a 500 never comes from a validation error or a factory error |
| FeedModel.ParseKind | backend/src/modules/feeds/feed.schema.ts:26-39 | a `type` string names a kind if and only if it is COMMENT, CHECKIN or PHOTO, and that kind's name is the string |
| Schemas.IdParamsSchema | backend/src/modules/feeds/feed.schema.ts:3-5 | the route parameters are accepted if and only if `id` is present and a UUID, and the result is the identifier that UUID names; otherwise the error names `id` |
| Schemas.CreateFeedEntrySchema | backend/src/modules/feeds/feed.schema.ts:26-39 | an accepted entry's payload has the entry's kind and meets that kind's field rules, and it holds exactly the values the body's `payload` object sent; a rejection names one field |
| Schemas.PayloadSchemaSound | backend/src/modules/feeds/feed.schema.ts:7-24 | everything a payload schema accepts is a well-formed payload of its own kind |
| Schemas.PayloadSchemaExact | backend/src/modules/feeds/feed.schema.ts:7-24 | a payload schema parses a JSON value to a payload if and only if the payload is well formed, of the schema's kind, and the JSON object holds exactly its values in the fields the schema reads |
| Schemas.PayloadSchemaRefuses | backend/src/modules/feeds/feed.schema.ts:7-24 | a comment without a non-empty `message`, a check-in without an attendee object with a non-empty `name`, a photo without a `url` the URL check accepts, and any non-object are refused |
| Schemas.PayloadSchemaComplete | backend/src/modules/feeds/feed.schema.ts:7-24 | every well-formed payload, sent as JSON, is accepted by its kind's schema and parsed back to itself |
| Schemas.CommentPayloadComplete | backend/src/modules/feeds/feed.schema.ts:7-10 | a comment with a non-empty message and a non-empty author (if any) parses back to itself |
| Schemas.CheckinPayloadComplete | backend/src/modules/feeds/feed.schema.ts:12-19 | a check-in with a valid attendee, any source and an object meta (if any) parses back to itself |
| Schemas.AttendeeComplete | backend/src/modules/feeds/feed.schema.ts:13-16 | an attendee with a non-empty name and a valid email (if any) parses back to itself |
| Schemas.PhotoPayloadComplete | backend/src/modules/feeds/feed.schema.ts:21-24 | a photo with a URL and any caption parses back to itself |
| Schemas.FeedEntryChecksOnlyItsKind | backend/src/modules/feeds/feed.schema.ts:26-39 | when `type` names a kind, the entry is accepted if and only if its payload passes that kind's schema, and it then has that kind and the payload that kind's schema parses; any other `type` is rejected on `type` |
| Schemas.CoerceCapacity | backend/src/modules/events/event.schema.ts:9 | capacity is accepted if and only if its coerced number is a whole number at or above 0, and then equals that number |
| Schemas.ArrayCoercion | backend/src/modules/events/event.schema.ts:7-9 | an array coerces as the text it joins to: `[]` is the number 0 (so a capacity of 0) and an Invalid Date, a one-element array holding a string coerces as that string, as a number and as a date; a one-element array holding a number is that number; `[null]` is 0 and an Invalid Date; and two or more elements are never a number |
| Schemas.OptionalEventStatus | backend/src/modules/events/event.schema.ts:10 | an absent status is accepted as absent; a present one is accepted if and only if it names DRAFT, PUBLISHED or CLOSED |
| Schemas.CreateEventSchemaFields | backend/src/modules/events/event.schema.ts:4-13 | an accepted event has a non-empty title, the sent description, the coerced capacity, the start and end that `new Date` makes of the sent values, the sent status (none exactly when none was sent), and the identifiers of the UUIDs sent; a bad title, capacity, status, start or end is reported by name |
| Schemas.ListEventsQuerySchema | backend/src/modules/events/event.schema.ts:19-21 | `upcoming` is absent if and only if the query lacks it, and otherwise is the truthiness of the value sent |
| Schemas.UpcomingFalseStringIsTrue | backend/src/modules/events/event.schema.ts:20 | the query string `upcoming=false` turns the filter on |
| Text.Trim | backend/src/modules/organizers/organizer.service.ts:22 | the result is the input without its leading and trailing whitespace: a segment that neither starts nor ends with whitespace, with only whitespace cut on either side |
| Text.TrimIdempotent | backend/src/modules/venues/venue.service.ts:23-24 | trimming a trimmed string changes nothing |
| Text.BlankTrimsToEmpty | backend/src/modules/users/user.service.ts:25 | a name made only of whitespace is stored as the empty string |
| Text.ToLower | backend/src/modules/users/user.service.ts:24 | same length, each character lower-cased, no upper-case ASCII letter left |
| Text.ToLowerIdempotent | backend/src/modules/users/user.service.ts:24 | lower-casing a stored email again changes nothing |
| Sorting.SortBySorted | backend/src/modules/feeds/feed.service.ts:184-185 | under a total preorder, the sort's output is ordered |
| Sorting.SortByMembers | backend/src/modules/feeds/feed.service.ts:184-185 | the sort's output has the input's length and elements |
| FeedMigration.FindCheckin | backend/src/modules/feeds/feed.service.ts:87-100 | the result is an identifier of a check-in that matches, the least such (same event, `ts` within 1000 ms either way, same name, same email when one is given); None means that no check-in matches |
| FeedMigration.StepShape | backend/src/modules/feeds/feed.service.ts:43-143 | one loop pass keeps the rebuilt prefix. It appends an entry exactly when the entry survives, with the entry's kind and time. A reference is appended unchanged; a legacy comment or photo gets a reference to a document holding its payload. A legacy check-in's reference points to a check-in that the de-duplication query matches; when that check-in is new, it holds the entry's attendee, source, meta and time |
| FeedMigration.StepGrows | backend/src/modules/feeds/feed.service.ts:62-67 | one pass never changes or removes a document, never lowers the counter, and keeps every document identifier below the counter |
| FeedMigration.FoldGrows | backend/src/modules/feeds/feed.service.ts:43-144 | the whole loop only adds documents, under fresh identifiers |
| FeedMigration.FoldRepairs | backend/src/modules/feeds/feed.service.ts:43-144 | the loop rebuilds the index as the surviving entries, each repaired in order |
| FeedMigration.FoldKeepsReferences | backend/src/modules/feeds/feed.service.ts:29-39 | on an index of references only, the loop gives back the same index and creates nothing, so the early return changes no outcome |
| FeedMigration.MigrateIndexRepairs | backend/src/modules/feeds/feed.service.ts:43-147 | the repaired index is the survivors repaired one by one; it holds references only; the collections only grow |
| FeedMigration.MigrateIndexIdempotent | backend/src/modules/feeds/feed.service.ts:29-39 | a second repair, at any later time, changes nothing |
| FeedMigration.ReferencesSurvive | backend/src/modules/feeds/feed.service.ts:44-50 | every reference in the index is a survivor |
| FeedMigration.MigrateKeepsReference | backend/src/modules/feeds/feed.service.ts:44-50 | every existing reference is still in the repaired index |
| FeedMigration.UnusableLegacyDropped | backend/src/modules/feeds/feed.service.ts:56-144 | a legacy entry with no message, attendee name or URL, or of an unknown type, is dropped and changes nothing |
| FeedMigration.CheckinDeduplicated | backend/src/modules/feeds/feed.service.ts:87-122 | a legacy check-in points to a matching document. When one already exists, nothing is created and the counter stays. Otherwise exactly one check-in is created, under the next identifier, holding the event, the attendee's name and email, the entry's source and meta, and its time |
| FeedMigration.MigrateStore | backend/src/modules/feeds/feed.service.ts:18-23 | an event without a feed is untouched; the set of feeds is unchanged; every other event's index is unchanged |
| FeedMigration.MigrateStoreIdempotent | backend/src/modules/feeds/feed.service.ts:18-148 | running the repair twice for an event is the same as running it once |
| FeedMigration.MigrateStoreGrows | backend/src/modules/feeds/feed.service.ts:62-141 | the repair only adds documents, under fresh identifiers |
| FeedQueries.StoredPayloadKind | backend/src/modules/feeds/feed.service.ts:190-237 | a stored payload has the kind of the collection it comes from |
| FeedQueries.Resolve | backend/src/modules/feeds/feed.service.ts:186-240 | an entry resolves to an item only if it is a reference; the item has the entry's kind, identifier and time, and the document's payload. Every reference of a known kind whose document exists resolves |
| FeedQueries.ResolveAllMembers | backend/src/modules/feeds/feed.service.ts:186-241 | the output is no longer than the index, and an item is in it if and only if some entry resolves to it |
| FeedQueries.ResolveAllKeepsOrder | backend/src/modules/feeds/feed.service.ts:186-241 | resolving a newest-first index gives a newest-first feed |
| FeedQueries.NewerOrSameIsTotal | backend/src/modules/feeds/feed.service.ts:185 | the `ts`-descending order (timeless entries last) is total and transitive |
| FeedQueries.EventFeedProperties | backend/src/modules/feeds/feed.service.ts:161-241 | the feed is newest first, no longer than the index (so an empty index gives an empty feed), and shows exactly the entries that resolve, dropping dangling references |
| FeedQueries.MigratedLegacyEntriesResolve | backend/src/modules/feeds/feed.service.ts:151-241 | after the repair, every surviving legacy entry resolves, with its kind and its time |
| FeedQueries.WithDocument | backend/src/modules/feeds/feed.service.ts:268-306 | the new document holds the payload, the event and the entry time in the payload's collection; that collection changes only under the new identifier and the other two collections are unchanged |
| FeedQueries.AppendIndex | backend/src/modules/feeds/feed.service.ts:308-325 | the new index is the old one plus the new reference, as a multiset |
| FeedQueries.AppendIndexSorted | backend/src/modules/feeds/feed.service.ts:308-325 | the new index is sorted newest first and holds the old entries and the new one |
| FeedQueries.WithDocumentGrows | backend/src/modules/feeds/feed.service.ts:268-306 | creating the document changes no existing one and keeps identifiers below the counter |
| FeedQueries.AppendedEntryIsVisible | backend/src/modules/feeds/feed.service.ts:249-333 | the item an append returns is in the feed a later read shows, after that read's repair |
| FeedQueries.FindEntry | backend/src/modules/feeds/feed.service.ts:401-410 | the first index position whose reference has the identifier; None when no position has it |
| FeedQueries.UpdateDocument | backend/src/modules/feeds/feed.service.ts:418-484 | the update applies if and only if the event has a document with that identifier in the payload's collection. The document then reads back as the new payload; its event and time stay; no key and no other document changes |
| FeedQueries.UpdatedEntryReadsBack | backend/src/modules/feeds/feed.service.ts:416-494 | after an update the entry resolves to the new payload under its original time |
| FeedQueries.WithoutEvent | backend/src/modules/events/event.service.ts:134-139 | exactly the documents of other events remain, unchanged |
| FeedQueries.ByType | backend/src/modules/feeds/feed.service.ts:341-357 | one group per kind present in the index, holding the number of entries of that kind |
| FeedQueries.CountKindSorted | backend/src/modules/feeds/feed.service.ts:320 | sorting the index changes no kind's count |
| FeedQueries.ByTypeAfterAppend | backend/src/modules/feeds/feed.service.ts:308-325 | an append adds one to its own kind's count and leaves every other count alone |
| FeedQueries.ByTypeAfterMigration | backend/src/modules/feeds/feed.service.ts:337-357 | the counts read after the repair are the counts of the surviving entries |
| FeedQueries.BySource | backend/src/modules/feeds/feed.service.ts:359-374 | one group per source among the event's check-ins (no source is a group of its own), holding the number of check-ins with that source |
| FeedQueries.BySourceAfterCheckin | backend/src/modules/feeds/feed.service.ts:359-374 | a new check-in adds one to its own source's group for its own event, and nothing to any other group |
| Relational.LiveCountAfterIssue | backend/src/modules/tickets/ticket.service.ts:25-47 | a new ticket adds one seat to its registration's event when it is ISSUED or USED, and none elsewhere |
| Relational.LiveCountAfterStatusChange | backend/src/modules/tickets/ticket.service.ts:49-54 | confirming a registration moves no seat |
| Relational.CountsAfterRegistration | backend/src/modules/registrations/registration.service.ts:27-37 | a new registration moves no seat and adds one to its own event's registration count only |
| Relational.DeleteEventRows | backend/src/modules/events/event.service.ts:116-126 | the event is gone, and so are exactly its registrations and exactly the tickets of those registrations; every surviving event, registration and ticket row keeps its contents, and the other tables are unchanged |
| Relational.DeleteEventRowsProperties | backend/src/modules/events/event.service.ts:116-126 | the cascade keeps the foreign keys and leaves nothing of the event; every other event keeps its row, its registration rows and their ticket rows, with their contents, and so its counts |
| Relational.ConsistentAfterNewUser | backend/src/modules/users/user.service.ts:22-38 | inserting a user with an unused email keeps the invariant |
| Relational.ConsistentAfterNewOrganizer | backend/src/modules/organizers/organizer.service.ts:19-34 | inserting an organizer with an unused key keeps the invariant |
| Relational.ConsistentAfterNewVenue | backend/src/modules/venues/venue.service.ts:20-37 | inserting a venue with an unused key keeps the invariant |
| Relational.ConsistentAfterOrganizerRemoved | backend/src/modules/organizers/organizer.service.ts:37-50 | removing an organizer that no event names keeps the invariant |
| Relational.ConsistentAfterVenueRemoved | backend/src/modules/venues/venue.service.ts:40-53 | removing a venue that no event uses keeps the invariant |
| Relational.ConsistentAfterNewEvent | backend/src/modules/events/event.service.ts:10-48 | inserting an event that has an organizer and a venue, ends after it starts and has an unused title and start keeps the invariant; it starts with no registrations |
| Relational.ConsistentAfterNewRegistration | backend/src/modules/registrations/registration.service.ts:14-41 | inserting a registration for an existing user and event, not already registered, keeps the invariant |
| Relational.IssueTicket | backend/src/modules/tickets/ticket.service.ts:40-54 | the ticket is added; its registration becomes CONFIRMED if it was PENDING and is otherwise unchanged, and no other field of it changes; nothing else changes |
| Relational.LiveCountAfterTicket | backend/src/modules/tickets/ticket.service.ts:25-54 | the issuance adds one seat to the ticket's event when the ticket is live, and none to any other event |
| Relational.ConsistentAfterTicket | backend/src/modules/tickets/ticket.service.ts:25-47 | issuing below capacity, for a registration without a ticket, keeps the invariant, so live tickets never exceed capacity |
| Relational.IssueTicketKeepsRows | backend/src/modules/tickets/ticket.service.ts:40-60 | the issuance keeps the identifier bound, the foreign keys, the unique constraints and event ordering |
| Relational.ConsistentAfterEventDeleted | backend/src/modules/events/event.service.ts:116-126 | the cascade keeps the invariant |
| Relational.ListOrganizers | backend/src/modules/organizers/organizer.service.ts:6-14 | every organizer exactly once, names in ascending order |
| Relational.ListVenues | backend/src/modules/venues/venue.service.ts:6-15 | every venue exactly once, names in ascending order |
| Relational.ListUsers | backend/src/modules/users/user.service.ts:6-16 | every user exactly once, oldest first |
| Relational.StartingFrom | backend/src/modules/events/event.service.ts:61 | exactly the rows starting at or after now |
| Relational.SelectedEvents | backend/src/modules/events/event.service.ts:59-61 | exactly the events, or with `upcoming` exactly those starting at or after now |
| Relational.ByStart | backend/src/modules/events/event.service.ts:71 | the same rows, by start time ascending |
| Relational.WithCounts | backend/src/modules/events/event.service.ts:74-77 | each row with its event's number of registrations |
| Relational.ListEvents | backend/src/modules/events/event.service.ts:58-78 | every listed event exists, carries its registration count and meets the filter; every event that meets the filter is listed, each exactly once; start times ascend |
| Services.Store.MigrateLegacyFeedEntries | backend/src/modules/feeds/feed.service.ts:18-148 | the loop leaves the document store as `MigrateStore` says and the tables unchanged, and keeps the invariant |
| Services.Store.RepairEntry | backend/src/modules/feeds/feed.service.ts:43-143 | one pass of the loop, equal to `Step` |
| Services.Store.GetEventFeed | backend/src/modules/feeds/feed.service.ts:149-247 | repairs the index, then returns the resolved feed. It is newest first and no longer than the surviving entries. A missing index gives an empty list |
| Services.Store.AppendFeedEntry | backend/src/modules/feeds/feed.service.ts:249-333 | an unknown event gives 404 with nothing written, before the body is parsed; a bad body gives the schema's error. Otherwise exactly one document, holding the payload the body sent, and one reference are written, kept newest first. The returned item carries that payload with the stored identifier and time |
| Services.Store.StoreEntry | backend/src/modules/feeds/feed.service.ts:268-325 | exactly one document, under the next identifier, holding the payload, the event and the time, and its reference placed in the index (created if absent) |
| Services.Store.GetEventAnalytics | backend/src/modules/feeds/feed.service.ts:335-380 | repairs the index, then counts the repaired index per kind (the counts of the surviving entries) and the event's check-ins per source |
| Services.Store.UpdateFeedEntry | backend/src/modules/feeds/feed.service.ts:382-495 | checks in this order: a bad identifier gives 400, then a bad body its schema error, both before any write; then, after the repair, an unreferenced identifier gives 404, a kind change 400 and a missing document 404. Otherwise the document's payload is overwritten with the payload the body sent, the index stays, and that payload is returned with the entry's original time |
| Services.Store.CreateEvent | backend/src/modules/events/event.service.ts:7-56 | a bad body gives the schema's error. Otherwise the checks of `InsertEvent` run in its order on the values the body sent, including the 400 when the end is not after the start |
| Services.Store.InsertEvent | backend/src/modules/events/event.service.ts:10-55 | the checks in this order: an end not after the start gives 400, an unknown organizer 404, an unknown venue 404, a taken title and start 409; each changes nothing. Otherwise exactly one new event (default status if none), with registration count 0 |
| Services.Store.ListEvents | backend/src/modules/events/event.service.ts:58-78 | the listing of `Relational.ListEvents`; an event is listed if and only if it meets the filter, and no event is listed twice |
| Services.Store.GetEventById | backend/src/modules/events/event.service.ts:80-108 | an unknown event gives 404; otherwise the event with its registration count |
| Services.Store.DeleteEvent | backend/src/modules/events/event.service.ts:110-140 | an unknown event gives 404 with nothing changed; otherwise the relational cascade, the event's feed index removed and its documents deleted; every other event's row, registration rows, ticket rows, index and documents are kept with their contents |
| Services.Store.CreateTicket | backend/src/modules/tickets/ticket.service.ts:6-64 | the checks in this order: a negative price, then 404 for an unknown registration, 400 for a cancelled one, 400 when live tickets fill the capacity (so capacity 0 never issues), 409 for a second ticket. A rejection changes nothing. Otherwise a ticket (ISSUED by default), with a PENDING registration confirmed |
| Services.Store.IssueTicketRows | backend/src/modules/tickets/ticket.service.ts:40-56 | the two writes produce `IssueTicket` under the next identifier and keep the invariant |
| Services.Store.CreateRegistration | backend/src/modules/registrations/registration.service.ts:6-44 | the checks in this order: 404 for an unknown event, 404 for an unknown user, 400 for a closed event, 409 for a second registration; each changes nothing. Otherwise one registration, PENDING by default |
| Services.Store.ListOrganizers | backend/src/modules/organizers/organizer.service.ts:6-14 | the sorted listing; it holds exactly the organizers |
| Services.Store.CreateOrganizer | backend/src/modules/organizers/organizer.service.ts:16-35 | an empty name gives the schema's error; the name is stored trimmed; a taken key gives 409 and changes nothing |
| Services.Store.DeleteOrganizer | backend/src/modules/organizers/organizer.service.ts:37-51 | an unknown organizer gives 404; one that an event names gives 409 and stays; otherwise only that organizer is removed |
| Services.Store.ListVenues | backend/src/modules/venues/venue.service.ts:6-15 | the sorted listing; it holds exactly the venues |
| Services.Store.CreateVenue | backend/src/modules/venues/venue.service.ts:17-38 | the schema's error names each empty field; the name and address are stored trimmed; a taken key gives 409 and changes nothing |
| Services.Store.DeleteVenue | backend/src/modules/venues/venue.service.ts:40-54 | an unknown venue gives 404; one that an event uses gives 409 and stays; otherwise only that venue is removed |
| Services.Store.ListUsers | backend/src/modules/users/user.service.ts:6-16 | the listing oldest first; it holds exactly the users |
| Services.Store.CreateUser | backend/src/modules/users/user.service.ts:18-42 | the schema's error names a bad email and an empty name. The email is stored lower-cased and not trimmed, the name trimmed, the role USER by default. A taken lower-cased email gives 409 and changes nothing |

## Left out

- HTTP plumbing is not modelled: controllers, routers, the app and server files, the OpenAPI document, the seed script and the frontend. Connecting to the databases is I/O and is left out too.
- Concurrency and atomicity are not modelled. Each service call is one atomic step, so the race between counting tickets and inserting one does not arise. The same holds for the gap between the relational and document deletes of `deleteEvent`.
- Clocks and identifier generation are parameters. Each call takes one clock reading `now`, and identifiers come from the counter `nextId` instead of UUIDs and ObjectIds. Returned identifiers are the abstract `Id`, not their string form.
- Library checks are abstract. zod's UUID, email and URL checks, mongoose's ObjectId parsing, the parsing of non-blank text by `new Date` and `Number`, and `String` of a number are total functions passed in as `Formats`. Blank text, arrays, objects, null and booleans are coerced by the model itself.
- Prisma's `include`d relations are left out of every result: the organizer, venue, user and registration rows that the services attach. Results carry the row itself and the counts.
- Services.Store.UpdateFeedEntry: it validates the body with `createFeedEntrySchema`. The `updateFeedEntrySchema` that feed.service.ts imports is not defined in feed.schema.ts, and that missing schema is not part of this model.
- Handlers the routers and controllers name have no service code, so they are not modelled: `deleteFeedEntry`, `deleteUser`, event update and delete handlers, and organizer and venue get and update. There is likewise no code for cancelling a registration or refunding a ticket.
- Services.Store.CreateOrganizer, Services.Store.CreateVenue, Services.Store.CreateUser, Services.Store.CreateRegistration and Services.Store.CreateTicket take typed arguments, not a JSON body. Their one- to three-rule zod schemas appear only as the error results for the rules a typed argument can break. The ticket's `z.coerce.number()` on a string price and the enum checks on status and role are not modelled.
- Schemas.CreateEventSchema reports validation details as the names of the failing top-level fields. zod's full issue list, its messages and nested paths are not modelled.
- Legacy feed payloads hold optional strings, an optional attendee object and an optional `meta` object. A legacy field holding a non-string JSON value is not modelled.
- Text.ToLower: lower-cases the ASCII letters only; the Unicode case mappings of `toLowerCase` are not modelled.
- Text.StrLe: compares code points. That is the order of a byte-wise (C) collation over UTF-8; locale-aware database collations are not modelled.
- FeedMigration.FindCheckin: `findOne` returns some matching check-in, and MongoDB's natural order does not promise which; the model picks the least identifier, which is the oldest one in insertion order.
- FeedQueries.AppendIndex: `$sort: { ts: -1 }` leaves the order of entries with equal `ts` open; the model's stable sort puts the new reference after the older ones.
- Relational.ListOrganizers, Relational.ListVenues, Relational.ListUsers and Relational.ListEvents break ties between equal sort keys by identifier; the database leaves that order open.
- The default status of a new event is the Prisma schema's default, which is not part of this model; the store takes it as a constructor parameter.
- The organizer and venue unique constraints are not visible in the services, so they are abstract key functions.
- Ticket prices are JavaScript numbers; the model stores a `real` and does no floating-point arithmetic on it, as the code does none.
- `Date` precision is not modelled: times are whole milliseconds, and a numeric date is truncated toward zero.

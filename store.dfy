/** The backend's two stores as one object, and every domain service as a method on it.
    Each method runs as one step: it either returns a value or what the service throws,
    and its postcondition states the whole new state. */
module Services {
  import opened Common
  import opened Text
  import opened Json
  import opened Errors
  import opened Entities
  import opened FeedModel
  import opened Schemas
  import opened Relational
  import opened FeedMigration
  import opened FeedQueries

  class Store {
    /** The relational store: the six tables. */
    var tables: Tables
    /** The document store: one feed index per event, and the three entry collections. */
    var feeds: map<Id, seq<IndexEntry>>
    var docs: Collections
    /** The identifier the next inserted row or document receives. */
    var nextId: nat

    /** The status an event gets when the request names none (the database default). */
    const defaultStatus: EventStatus
    /** The unique keys of the organizer and venue tables. */
    const organizerKey: Organizer -> string
    const venueKey: Venue -> string

    function DocState(): DocStore
      reads this`feeds, this`docs, this`nextId
    {
      DocStore(feeds, docs, nextId)
    }

    /** The tables are consistent and no document identifier is handed out twice. */
    ghost predicate Valid()
      reads this
    {
      Consistent(tables, nextId, organizerKey, venueKey) && CollectionsBelow(docs, nextId)
    }

    /** Empty tables, and the feed indexes and documents an earlier version left behind. */
    constructor (defaultStatus: EventStatus, organizerKey: Organizer -> string, venueKey: Venue -> string,
                 feeds: map<Id, seq<IndexEntry>>, docs: Collections, firstId: nat)
      requires CollectionsBelow(docs, firstId)
      ensures Valid()
      ensures tables == Tables(map[], map[], map[], map[], map[], map[])
      ensures DocState() == DocStore(feeds, docs, firstId)
      ensures this.defaultStatus == defaultStatus && this.organizerKey == organizerKey && this.venueKey == venueKey
    {
      this.defaultStatus := defaultStatus;
      this.organizerKey := organizerKey;
      this.venueKey := venueKey;
      tables := Tables(map[], map[], map[], map[], map[], map[]);
      this.feeds := feeds;
      this.docs := docs;
      nextId := firstId;
    }

    // ============================================================ feed.service.ts

    /** `migrateLegacyFeedEntries`: the repair of one event's index, run as the source
        runs it, one entry at a time. */
    method MigrateLegacyFeedEntries(eventId: Id, now: int)
      requires Valid()
      modifies this
      ensures Valid()
      ensures tables == old(tables)
      ensures DocState() == MigrateStore(old(DocState()), eventId, now)
    {
      if eventId !in feeds {
        return;
      }
      var entries := feeds[eventId];

      var hasLegacyEntries := false;
      var j := 0;
      while j < |entries|
        invariant 0 <= j <= |entries|
        invariant forall k :: 0 <= k < j ==> entries[k].Ref?
      {
        if entries[j].Legacy? {
          hasLegacyEntries := true;
          break;
        }
        j := j + 1;
      }
      if !hasLegacyEntries {
        assert feeds[eventId := entries] == feeds;
        return;
      }

      ghost var start := Migration([], docs, nextId);
      var updatedEntries: seq<IndexEntry> := [];
      var i := 0;
      while i < |entries|
        invariant 0 <= i <= |entries|
        invariant Migration(updatedEntries, docs, nextId) == Fold(entries[..i], eventId, now, start)
        invariant tables == old(tables) && feeds == old(feeds)
      {
        assert entries[..i + 1][..i] == entries[..i];
        updatedEntries := RepairEntry(entries[i], eventId, now, updatedEntries);
        i := i + 1;
      }
      assert entries[..|entries|] == entries;
      assert !AllRefs(entries);
      FoldGrows(entries, eventId, now, start);
      feeds := feeds[eventId := updatedEntries];
      ConsistentBelowMore(tables, old(nextId), nextId, organizerKey, venueKey);
    }

    /** One pass of the repair loop: a reference is kept; a usable legacy entry becomes
        a document (or, for a check-in, is matched with an existing one) and a reference
        to it; anything else is dropped. */
    method RepairEntry(entry: IndexEntry, eventId: Id, now: int, updatedEntries: seq<IndexEntry>) returns (updated: seq<IndexEntry>)
      modifies this`docs, this`nextId
      ensures Migration(updated, docs, nextId) == Step(Migration(updatedEntries, old(docs), old(nextId)), entry, eventId, now)
    {
      updated := updatedEntries;
      match entry {
        case Ref(_, _, _) =>
          updated := updatedEntries + [entry];
        case Legacy(kind, payload, legacyTs) =>
          var timestamp := if legacyTs.Some? then legacyTs.value else now;
          if kind == "COMMENT" {
            if Present(payload.message) {
              var id := nextId;
              nextId := nextId + 1;
              docs := docs.(comments := docs.comments[id := Comment(eventId, payload.message.value, payload.author, timestamp)]);
              updated := updatedEntries + [Ref(kind, id, timestamp)];
            }
          } else if kind == "CHECKIN" {
            if payload.attendee.Some? && Present(payload.attendee.value.name) {
              var name := payload.attendee.value.name.value;
              var email := payload.attendee.value.email;
              var existing := FindCheckin(docs.checkins, eventId, timestamp, name, email, 0, nextId);
              if existing.Some? {
                updated := updatedEntries + [Ref(kind, existing.value, timestamp)];
              } else {
                var id := nextId;
                nextId := nextId + 1;
                docs := docs.(checkins := docs.checkins[id := Checkin(eventId, Attendee(name, email), payload.source, payload.meta, timestamp)]);
                updated := updatedEntries + [Ref(kind, id, timestamp)];
              }
            }
          } else if kind == "PHOTO" {
            if Present(payload.url) {
              var id := nextId;
              nextId := nextId + 1;
              docs := docs.(photos := docs.photos[id := Photo(eventId, payload.url.value, payload.caption, timestamp)]);
              updated := updatedEntries + [Ref(kind, id, timestamp)];
            }
          }
      }
    }

    /** `getEventFeed`: repairs the index, then lists what it references, newest first;
        a missing or empty index gives an empty feed. */
    method GetEventFeed(eventId: Id, now: int) returns (items: seq<FeedItem>)
      requires Valid()
      modifies this
      ensures Valid()
      ensures tables == old(tables)
      ensures DocState() == MigrateStore(old(DocState()), eventId, now)
      ensures items == (if eventId in feeds then EventFeed(feeds[eventId], docs) else [])
      ensures NewestFirst(items)
      ensures eventId in old(feeds) ==> |items| <= |Survivors(old(feeds[eventId]))|
    {
      MigrateLegacyFeedEntries(eventId, now);
      if eventId in feeds {
        items := EventFeed(feeds[eventId], docs);
        EventFeedProperties(feeds[eventId], docs);
        MigrateIndexRepairs(old(feeds[eventId]), old(docs), old(nextId), eventId, now);
      } else {
        items := [];
      }
    }

    /** `appendFeedEntry`: 404 for an unknown event (before the body is looked at), the
        schema's error for a bad body; otherwise one new document and one new reference,
        with the index kept newest first. */
    method AppendFeedEntry(eventId: Id, body: Json, fm: Formats, now: int) returns (r: Result<FeedItem>)
      requires Valid()
      modifies this
      ensures Valid()
      ensures tables == old(tables)
      ensures eventId !in old(tables.events) ==>
                r == Err(Http(NotFound("Event not found"))) && DocState() == old(DocState())
      ensures eventId in old(tables.events) && CreateFeedEntrySchema(body, fm).Invalid? ==>
                r == Err(ZodError(CreateFeedEntrySchema(body, fm).fields)) && DocState() == old(DocState())
      ensures eventId in old(tables.events) && CreateFeedEntrySchema(body, fm).Valid? ==>
                var input := CreateFeedEntrySchema(body, fm).value;
                var id := old(nextId);
                var ref := Ref(KindName(input.kind), id, now);
                var index := if eventId in old(feeds) then old(feeds[eventId]) else [];
                && r == Ok(FeedItem(input.kind, id, input.payload, now))
                && nextId == id + 1
                && docs == WithDocument(old(docs), id, eventId, input.payload, now)
                && feeds == old(feeds)[eventId := AppendIndex(index, ref)]
    {
      if eventId !in tables.events {
        return Err(Http(NotFound("Event not found")));
      }
      var parsed := CreateFeedEntrySchema(body, fm);
      if parsed.Invalid? {
        return Err(ZodError(parsed.fields));
      }
      var data := parsed.value;
      var createdId := StoreEntry(eventId, data, now);
      r := Ok(FeedItem(data.kind, createdId, data.payload, now));
    }

    /** The two writes of `appendFeedEntry`: the document, then the reference to it at
        its place in the event's index. */
    method StoreEntry(eventId: Id, input: FeedEntryInput, now: int) returns (id: Id)
      requires Valid()
      modifies this`docs, this`feeds, this`nextId
      ensures Valid()
      ensures id == old(nextId) && nextId == id + 1
      ensures docs == WithDocument(old(docs), id, eventId, input.payload, now)
      ensures var index := if eventId in old(feeds) then old(feeds[eventId]) else [];
              feeds == old(feeds)[eventId := AppendIndex(index, Ref(KindName(input.kind), id, now))]
    {
      id := nextId;
      WithDocumentGrows(docs, id, eventId, input.payload, now);
      ConsistentBelowMore(tables, id, id + 1, organizerKey, venueKey);
      docs := WithDocument(docs, id, eventId, input.payload, now);
      nextId := nextId + 1;
      var index := if eventId in feeds then feeds[eventId] else [];
      feeds := feeds[eventId := AppendIndex(index, Ref(KindName(input.kind), id, now))];
    }

    /** `getEventAnalytics`: repairs the index, then counts its entries per kind and the
        event's check-ins per source. */
    method GetEventAnalytics(eventId: Id, now: int) returns (byType: map<string, nat>, bySource: map<Option<string>, nat>)
      requires Valid()
      modifies this
      ensures Valid()
      ensures tables == old(tables)
      ensures DocState() == MigrateStore(old(DocState()), eventId, now)
      ensures byType == ByType(if eventId in feeds then feeds[eventId] else [])
      ensures eventId in old(feeds) ==>
                forall k :: k in byType ==> byType[k] == CountKind(Survivors(old(feeds[eventId])), k)
      ensures bySource == BySource(docs.checkins, eventId)
    {
      MigrateLegacyFeedEntries(eventId, now);
      byType := ByType(if eventId in feeds then feeds[eventId] else []);
      bySource := BySource(docs.checkins, eventId);
      if eventId in old(feeds) {
        forall k | k in byType ensures byType[k] == CountKind(Survivors(old(feeds[eventId])), k) {
          ByTypeAfterMigration(old(feeds[eventId]), old(docs), old(nextId), eventId, now, k);
        }
      }
    }

    /** `updateFeedEntry`: 400 for a malformed identifier and the schema's error for a bad
        body (both before anything is written); then the index is repaired, and an
        identifier the index does not reference gives 404, a different kind 400, and a
        document missing from the event 404. Otherwise the document's payload is
        overwritten; the index and the entry's time stay. */
    method UpdateFeedEntry(eventId: Id, entryId: string, body: Json, fm: Formats, now: int) returns (r: Result<FeedItem>)
      requires Valid()
      modifies this
      ensures Valid()
      ensures tables == old(tables)
      ensures fm.objectId(entryId).None? ==>
                r == Err(Http(BadRequest("Invalid feed entry id"))) && DocState() == old(DocState())
      ensures fm.objectId(entryId).Some? && CreateFeedEntrySchema(body, fm).Invalid? ==>
                r == Err(ZodError(CreateFeedEntrySchema(body, fm).fields)) && DocState() == old(DocState())
      ensures fm.objectId(entryId).Some? && CreateFeedEntrySchema(body, fm).Valid? ==>
                var id := fm.objectId(entryId).value;
                var input := CreateFeedEntrySchema(body, fm).value;
                var s := MigrateStore(old(DocState()), eventId, now);
                var index := if eventId in s.feeds then s.feeds[eventId] else [];
                var found := FindEntry(index, id);
                if found.None? then
                  r == Err(Http(NotFound("Feed entry not found"))) && DocState() == s
                else if index[found.value].kind != KindName(input.kind) then
                  r == Err(Http(BadRequest("Feed entry type mismatch"))) && DocState() == s
                else if UpdateDocument(s.docs, id, eventId, input.payload).None? then
                  r == Err(Http(NotFound(MissingDocumentMessage(input.kind)))) && DocState() == s
                else
                  && r == Ok(FeedItem(input.kind, id, input.payload, index[found.value].ts))
                  && DocState() == s.(docs := UpdateDocument(s.docs, id, eventId, input.payload).value)
    {
      var objectId := fm.objectId(entryId);
      if objectId.None? {
        return Err(Http(BadRequest("Invalid feed entry id")));
      }
      var id := objectId.value;
      var parsed := CreateFeedEntrySchema(body, fm);
      if parsed.Invalid? {
        return Err(ZodError(parsed.fields));
      }
      var data := parsed.value;
      MigrateLegacyFeedEntries(eventId, now);

      var index := if eventId in feeds then feeds[eventId] else [];
      var found := FindEntry(index, id);
      if found.None? {
        return Err(Http(NotFound("Feed entry not found")));
      }
      var matchingEntry := index[found.value];
      if matchingEntry.kind != KindName(data.kind) {
        return Err(Http(BadRequest("Feed entry type mismatch")));
      }
      var updated := UpdateDocument(docs, id, eventId, data.payload);
      if updated.None? {
        return Err(Http(NotFound(MissingDocumentMessage(data.kind))));
      }
      docs := updated.value;
      r := Ok(FeedItem(data.kind, id, data.payload, matchingEntry.ts));
    }

    // ============================================================ event.service.ts

    /** `createEvent`: the schema's error, or what `InsertEvent` does with the parsed
        body. */
    method CreateEvent(body: Json, fm: Formats) returns (r: Result<EventListing>)
      requires Valid()
      modifies this
      ensures Valid()
      ensures feeds == old(feeds) && docs == old(docs)
      ensures r.Err? ==> tables == old(tables) && nextId == old(nextId)
      ensures CreateEventSchema(body, fm).Invalid? ==> r == Err(ZodError(CreateEventSchema(body, fm).fields))
      ensures CreateEventSchema(body, fm).Valid? ==>
                var input := CreateEventSchema(body, fm).value;
                var event := Event(input.title, input.description, input.startAt, input.endAt, input.capacity,
                                   input.status.GetOr(defaultStatus), input.organizerId, input.venueId);
                if input.endAt <= input.startAt then r == Err(Http(BadRequest("endAt must be after startAt")))
                else if input.organizerId !in old(tables.organizers) then r == Err(Http(NotFound("Organizer not found")))
                else if input.venueId !in old(tables.venues) then r == Err(Http(NotFound("Venue not found")))
                else if KeyTaken(old(tables.events), EventKey, EventKey(event)) then
                  r == Err(Http(Conflict("An event with the same title and start date already exists")))
                else
                  && r == Ok(EventListing(old(nextId), event, 0))
                  && tables == old(tables).(events := old(tables.events)[old(nextId) := event])
                  && nextId == old(nextId) + 1
    {
      var parsed := CreateEventSchema(body, fm);
      if parsed.Invalid? {
        return Err(ZodError(parsed.fields));
      }
      r := InsertEvent(parsed.value);
    }

    /** `createEvent` once the body has parsed: 400 when the event does not end after it
        starts, 404 for an unknown organizer (checked before the venue), 404 for an
        unknown venue, 409 for a second event with the same title and start; otherwise
        the new event, with no registrations. A rejection changes nothing. */
    method InsertEvent(input: EventInput) returns (r: Result<EventListing>)
      requires Valid()
      modifies this`tables, this`nextId
      ensures Valid()
      ensures r.Err? ==> tables == old(tables) && nextId == old(nextId)
      ensures var event := Event(input.title, input.description, input.startAt, input.endAt, input.capacity,
                                 input.status.GetOr(defaultStatus), input.organizerId, input.venueId);
                if input.endAt <= input.startAt then r == Err(Http(BadRequest("endAt must be after startAt")))
                else if input.organizerId !in old(tables.organizers) then r == Err(Http(NotFound("Organizer not found")))
                else if input.venueId !in old(tables.venues) then r == Err(Http(NotFound("Venue not found")))
                else if KeyTaken(old(tables.events), EventKey, EventKey(event)) then
                  r == Err(Http(Conflict("An event with the same title and start date already exists")))
                else
                  && r == Ok(EventListing(old(nextId), event, 0))
                  && tables == old(tables).(events := old(tables.events)[old(nextId) := event])
                  && nextId == old(nextId) + 1
    {
      if input.endAt <= input.startAt {
        return Err(Http(BadRequest("endAt must be after startAt")));
      }
      if input.organizerId !in tables.organizers {
        return Err(Http(NotFound("Organizer not found")));
      }
      if input.venueId !in tables.venues {
        return Err(Http(NotFound("Venue not found")));
      }
      var event := Event(input.title, input.description, input.startAt, input.endAt, input.capacity,
                         input.status.GetOr(defaultStatus), input.organizerId, input.venueId);
      if KeyTaken(tables.events, EventKey, EventKey(event)) {
        return Err(Http(Conflict("An event with the same title and start date already exists")));
      }
      var id := nextId;
      ConsistentAfterNewEvent(tables, id, organizerKey, venueKey, event);
      tables := tables.(events := tables.events[id := event]);
      nextId := nextId + 1;
      r := Ok(EventListing(id, event, 0));
    }

    /** `listEvents`. */
    method ListEvents(upcoming: Option<bool>, now: int) returns (r: seq<EventListing>)
      requires Valid()
      ensures r == Relational.ListEvents(tables, nextId, upcoming, now)
      ensures forall id :: id in tables.events && (upcoming == Some(true) ==> tables.events[id].startAt >= now)
                <==> exists i :: 0 <= i < |r| && r[i].id == id
      ensures forall i, j :: 0 <= i < j < |r| ==> r[i].id != r[j].id
    {
      r := Relational.ListEvents(tables, nextId, upcoming, now);
    }

    /** `getEventById`: 404 for an unknown event; otherwise the event with its number of
        registrations. */
    method GetEventById(id: Id) returns (r: Result<EventListing>)
      requires Valid()
      ensures id !in tables.events ==> r == Err(Http(NotFound("Event not found")))
      ensures id in tables.events ==> r == Ok(EventListing(id, tables.events[id], RegistrationCount(tables, id)))
    {
      if id !in tables.events {
        return Err(Http(NotFound("Event not found")));
      }
      r := Ok(EventListing(id, tables.events[id], RegistrationCount(tables, id)));
    }

    /** `deleteEvent`: 404 for an unknown event, with nothing changed; otherwise the
        relational cascade, then the event's feed index and documents. */
    method DeleteEvent(id: Id) returns (r: Result<()>)
      requires Valid()
      modifies this
      ensures Valid()
      ensures nextId == old(nextId)
      ensures id !in old(tables.events) ==>
                r == Err(Http(NotFound("Event not found"))) && tables == old(tables) && DocState() == old(DocState())
      ensures id in old(tables.events) ==>
                && r == Ok(())
                && tables == DeleteEventRows(old(tables), id)
                && feeds == old(feeds) - {id}
                && docs == WithoutEvent(old(docs), id)
    {
      if id !in tables.events {
        return Err(Http(NotFound("Event not found")));
      }
      ConsistentAfterEventDeleted(tables, nextId, organizerKey, venueKey, id);
      tables := DeleteEventRows(tables, id);
      feeds := feeds - {id};
      docs := WithoutEvent(docs, id);
      r := Ok(());
    }

    // ============================================================ ticket.service.ts

    /** `createTicket`, one transaction: the schema's error for a negative price, 404 for
        an unknown registration, 400 for a cancelled one, 400 when the event's ISSUED and
        USED tickets already fill its capacity, 409 when the registration has a ticket.
        Otherwise the ticket (ISSUED unless told otherwise), and a PENDING registration
        becomes CONFIRMED. A rejection changes nothing. */
    method CreateTicket(registrationId: Id, price: real, status: Option<TicketStatus>, now: int) returns (r: Result<(Id, Ticket)>)
      requires Valid()
      modifies this
      ensures Valid()
      ensures feeds == old(feeds) && docs == old(docs)
      ensures r ==
        var t := old(tables);
        if price < 0.0 then Err(ZodError({"price"}))
        else if registrationId !in t.registrations then Err(Http(NotFound("Registration not found")))
        else if t.registrations[registrationId].status == CANCELLED then
          Err(Http(BadRequest("Cannot issue a ticket for a cancelled registration")))
        else if LiveCount(t, t.registrations[registrationId].eventId)
                >= t.events[t.registrations[registrationId].eventId].capacity then
          Err(Http(BadRequest("Event capacity reached")))
        else if KeyTaken(t.tickets, TicketKey, registrationId) then
          Err(Http(Conflict("Ticket already issued for this registration")))
        else Ok((old(nextId), Ticket(registrationId, price, status.GetOr(ISSUED), now)))
      ensures tables == if r.Ok? then IssueTicket(old(tables), r.value.0, r.value.1) else old(tables)
      ensures nextId == if r.Ok? then old(nextId) + 1 else old(nextId)
    {
      if price < 0.0 {
        return Err(ZodError({"price"}));
      }
      if registrationId !in tables.registrations {
        return Err(Http(NotFound("Registration not found")));
      }
      var registration := tables.registrations[registrationId];
      if registration.status == CANCELLED {
        return Err(Http(BadRequest("Cannot issue a ticket for a cancelled registration")));
      }
      var ticketsForEvent := LiveCount(tables, registration.eventId);
      if ticketsForEvent >= tables.events[registration.eventId].capacity {
        return Err(Http(BadRequest("Event capacity reached")));
      }
      if KeyTaken(tables.tickets, TicketKey, registrationId) {
        return Err(Http(Conflict("Ticket already issued for this registration")));
      }
      var ticket := Ticket(registrationId, price, status.GetOr(ISSUED), now);
      var id := IssueTicketRows(ticket);
      r := Ok((id, ticket));
    }

    /** The transaction's two writes: the ticket, then a PENDING registration's
        confirmation. */
    method IssueTicketRows(ticket: Ticket) returns (id: Id)
      requires Valid()
      requires ticket.registrationId in tables.registrations
      requires LiveCount(tables, tables.registrations[ticket.registrationId].eventId)
                 < tables.events[tables.registrations[ticket.registrationId].eventId].capacity
      requires !KeyTaken(tables.tickets, TicketKey, TicketKey(ticket))
      modifies this`tables, this`nextId
      ensures Valid()
      ensures id == old(nextId) && nextId == id + 1
      ensures tables == IssueTicket(old(tables), id, ticket)
    {
      id := nextId;
      ConsistentAfterTicket(tables, id, organizerKey, venueKey, ticket);
      ghost var t := tables;
      var registration := tables.registrations[ticket.registrationId];
      tables := tables.(tickets := tables.tickets[id := ticket]);
      if registration.status == PENDING {
        tables := tables.(registrations := tables.registrations[ticket.registrationId := registration.(status := CONFIRMED)]);
      }
      assert tables == IssueTicket(t, id, ticket);
      nextId := nextId + 1;
    }

    // ============================================================ registration.service.ts

    /** `createRegistration`: 404 for an unknown event (checked before the user), 404 for
        an unknown user, 400 for a closed event, 409 for a second registration of the
        same user for the same event; otherwise the registration, PENDING unless told
        otherwise. */
    method CreateRegistration(eventId: Id, userId: Id, status: Option<RegistrationStatus>, now: int) returns (r: Result<(Id, Registration)>)
      requires Valid()
      modifies this
      ensures Valid()
      ensures feeds == old(feeds) && docs == old(docs)
      ensures r ==
        var t := old(tables);
        if eventId !in t.events then Err(Http(NotFound("Event not found")))
        else if userId !in t.users then Err(Http(NotFound("User not found")))
        else if t.events[eventId].status == CLOSED then Err(Http(BadRequest("Event is closed")))
        else if KeyTaken(t.registrations, RegistrationKey, (userId, eventId)) then
          Err(Http(Conflict("User already registered for this event")))
        else Ok((old(nextId), Registration(userId, eventId, status.GetOr(PENDING), now)))
      ensures tables == if r.Ok? then old(tables).(registrations := old(tables.registrations)[r.value.0 := r.value.1]) else old(tables)
      ensures nextId == if r.Ok? then old(nextId) + 1 else old(nextId)
    {
      if eventId !in tables.events {
        return Err(Http(NotFound("Event not found")));
      }
      if userId !in tables.users {
        return Err(Http(NotFound("User not found")));
      }
      if tables.events[eventId].status == CLOSED {
        return Err(Http(BadRequest("Event is closed")));
      }
      if KeyTaken(tables.registrations, RegistrationKey, (userId, eventId)) {
        return Err(Http(Conflict("User already registered for this event")));
      }
      var id := nextId;
      var registration := Registration(userId, eventId, status.GetOr(PENDING), now);
      ConsistentAfterNewRegistration(tables, id, organizerKey, venueKey, registration);
      tables := tables.(registrations := tables.registrations[id := registration]);
      nextId := nextId + 1;
      r := Ok((id, registration));
    }

    // ============================================================ organizer.service.ts

    /** `listOrganizers`. */
    method ListOrganizers() returns (r: seq<(Id, Organizer)>)
      requires Valid()
      ensures r == Relational.ListOrganizers(tables.organizers, nextId)
      ensures forall row :: row in r <==> row.0 in tables.organizers && tables.organizers[row.0] == row.1
    {
      r := Relational.ListOrganizers(tables.organizers, nextId);
    }

    /** `createOrganizer`: the schema's error for an empty name; the name is stored
        trimmed; 409 when the organizer key is taken. */
    method CreateOrganizer(name: string) returns (r: Result<(Id, Organizer)>)
      requires Valid()
      modifies this
      ensures Valid()
      ensures feeds == old(feeds) && docs == old(docs)
      ensures r ==
        if name == "" then Err(ZodError({"name"}))
        else if KeyTaken(old(tables.organizers), organizerKey, organizerKey(Organizer(Trim(name)))) then
          Err(Http(Conflict("Organizer already exists")))
        else Ok((old(nextId), Organizer(Trim(name))))
      ensures tables == if r.Ok? then old(tables).(organizers := old(tables.organizers)[r.value.0 := r.value.1]) else old(tables)
      ensures nextId == if r.Ok? then old(nextId) + 1 else old(nextId)
    {
      if name == "" {
        return Err(ZodError({"name"}));
      }
      var organizer := Organizer(Trim(name));
      if KeyTaken(tables.organizers, organizerKey, organizerKey(organizer)) {
        return Err(Http(Conflict("Organizer already exists")));
      }
      var id := nextId;
      ConsistentAfterNewOrganizer(tables, id, organizerKey, venueKey, organizer);
      tables := tables.(organizers := tables.organizers[id := organizer]);
      nextId := nextId + 1;
      r := Ok((id, organizer));
    }

    /** `deleteOrganizer`: 404 for an unknown organizer, 409 while an event names it;
        both leave it in place. */
    method DeleteOrganizer(id: Id) returns (r: Result<()>)
      requires Valid()
      modifies this
      ensures Valid()
      ensures DocState() == old(DocState())
      ensures r ==
        if id !in old(tables.organizers) then Err(Http(NotFound("Organizer not found")))
        else if exists e :: e in old(tables.events) && old(tables.events[e].organizerId) == id then
          Err(Http(Conflict("Organizer is assigned to existing events")))
        else Ok(())
      ensures tables == if r.Ok? then old(tables).(organizers := old(tables.organizers) - {id}) else old(tables)
    {
      if id !in tables.organizers {
        return Err(Http(NotFound("Organizer not found")));
      }
      if exists e :: e in tables.events && tables.events[e].organizerId == id {
        return Err(Http(Conflict("Organizer is assigned to existing events")));
      }
      ConsistentAfterOrganizerRemoved(tables, nextId, organizerKey, venueKey, id);
      tables := tables.(organizers := tables.organizers - {id});
      r := Ok(());
    }

    // ============================================================ venue.service.ts

    /** `listVenues`. */
    method ListVenues() returns (r: seq<(Id, Venue)>)
      requires Valid()
      ensures r == Relational.ListVenues(tables.venues, nextId)
      ensures forall row :: row in r <==> row.0 in tables.venues && tables.venues[row.0] == row.1
    {
      r := Relational.ListVenues(tables.venues, nextId);
    }

    /** `createVenue`: the schema's error names every empty field; name and address are
        stored trimmed; 409 when the venue key is taken. */
    method CreateVenue(name: string, address: string) returns (r: Result<(Id, Venue)>)
      requires Valid()
      modifies this
      ensures Valid()
      ensures feeds == old(feeds) && docs == old(docs)
      ensures r ==
        if name == "" || address == "" then
          Err(ZodError((if name == "" then {"name"} else {}) + (if address == "" then {"address"} else {})))
        else if KeyTaken(old(tables.venues), venueKey, venueKey(Venue(Trim(name), Trim(address)))) then
          Err(Http(Conflict("Venue already exists")))
        else Ok((old(nextId), Venue(Trim(name), Trim(address))))
      ensures tables == if r.Ok? then old(tables).(venues := old(tables.venues)[r.value.0 := r.value.1]) else old(tables)
      ensures nextId == if r.Ok? then old(nextId) + 1 else old(nextId)
    {
      if name == "" || address == "" {
        return Err(ZodError((if name == "" then {"name"} else {}) + (if address == "" then {"address"} else {})));
      }
      var venue := Venue(Trim(name), Trim(address));
      if KeyTaken(tables.venues, venueKey, venueKey(venue)) {
        return Err(Http(Conflict("Venue already exists")));
      }
      var id := nextId;
      ConsistentAfterNewVenue(tables, id, organizerKey, venueKey, venue);
      tables := tables.(venues := tables.venues[id := venue]);
      nextId := nextId + 1;
      r := Ok((id, venue));
    }

    /** `deleteVenue`: 404 for an unknown venue, 409 while an event takes place there;
        both leave it in place. */
    method DeleteVenue(id: Id) returns (r: Result<()>)
      requires Valid()
      modifies this
      ensures Valid()
      ensures DocState() == old(DocState())
      ensures r ==
        if id !in old(tables.venues) then Err(Http(NotFound("Venue not found")))
        else if exists e :: e in old(tables.events) && old(tables.events[e].venueId) == id then
          Err(Http(Conflict("Venue is attached to existing events")))
        else Ok(())
      ensures tables == if r.Ok? then old(tables).(venues := old(tables.venues) - {id}) else old(tables)
    {
      if id !in tables.venues {
        return Err(Http(NotFound("Venue not found")));
      }
      if exists e :: e in tables.events && tables.events[e].venueId == id {
        return Err(Http(Conflict("Venue is attached to existing events")));
      }
      ConsistentAfterVenueRemoved(tables, nextId, organizerKey, venueKey, id);
      tables := tables.(venues := tables.venues - {id});
      r := Ok(());
    }

    // ============================================================ user.service.ts

    /** `listUsers`. */
    method ListUsers() returns (r: seq<(Id, User)>)
      requires Valid()
      ensures r == Relational.ListUsers(tables.users, nextId)
      ensures forall row :: row in r <==> row.0 in tables.users && tables.users[row.0] == row.1
    {
      r := Relational.ListUsers(tables.users, nextId);
    }

    /** `createUser`: the schema's error names a malformed email and an empty name; the
        email is stored lower-cased (not trimmed), the name trimmed, the role USER unless
        told otherwise; 409 when the lower-cased email is taken. */
    method CreateUser(email: string, name: string, role: Option<UserRole>, fm: Formats, now: int) returns (r: Result<(Id, User)>)
      requires Valid()
      modifies this
      ensures Valid()
      ensures feeds == old(feeds) && docs == old(docs)
      ensures r ==
        if !fm.isEmail(email) || name == "" then
          Err(ZodError((if !fm.isEmail(email) then {"email"} else {}) + (if name == "" then {"name"} else {})))
        else if KeyTaken(old(tables.users), UserKey, ToLower(email)) then Err(Http(Conflict("Email already exists")))
        else Ok((old(nextId), User(Trim(name), ToLower(email), role.GetOr(USER), now)))
      ensures tables == if r.Ok? then old(tables).(users := old(tables.users)[r.value.0 := r.value.1]) else old(tables)
      ensures nextId == if r.Ok? then old(nextId) + 1 else old(nextId)
    {
      if !fm.isEmail(email) || name == "" {
        return Err(ZodError((if !fm.isEmail(email) then {"email"} else {}) + (if name == "" then {"name"} else {})));
      }
      var user := User(Trim(name), ToLower(email), role.GetOr(USER), now);
      if KeyTaken(tables.users, UserKey, user.email) {
        return Err(Http(Conflict("Email already exists")));
      }
      var id := nextId;
      ConsistentAfterNewUser(tables, id, organizerKey, venueKey, user);
      tables := tables.(users := tables.users[id := user]);
      nextId := nextId + 1;
      r := Ok((id, user));
    }
  }
}

/** The relational tables as values, and what the relational services compute from them:
    the seats an event has given away, its number of registrations, the cascade that
    deletes an event, and the orders in which the list endpoints return rows. */
module Relational {
  import opened Common
  import opened Text
  import opened Sorting
  import opened Entities

  datatype Tables = Tables(
    users: map<Id, User>,
    organizers: map<Id, Organizer>,
    venues: map<Id, Venue>,
    events: map<Id, Event>,
    registrations: map<Id, Registration>,
    tickets: map<Id, Ticket>)

  /** Foreign keys: every event names an existing organizer and venue, every
      registration an existing user and event, every ticket an existing registration. */
  ghost predicate ForeignKeysHold(t: Tables) {
    && (forall e :: e in t.events ==> t.events[e].organizerId in t.organizers && t.events[e].venueId in t.venues)
    && (forall r :: r in t.registrations ==> t.registrations[r].userId in t.users && t.registrations[r].eventId in t.events)
    && (forall k :: k in t.tickets ==> t.tickets[k].registrationId in t.registrations)
  }

  /** No two rows of `m` share a key: the table's unique constraint. */
  ghost predicate UniqueBy<V, K>(m: map<Id, V>, key: V -> K) {
    forall a, b {:trigger key(m[a]), key(m[b])} :: a in m && b in m && key(m[a]) == key(m[b]) ==> a == b
  }

  /** Some row of `m` already has key `k`: an insert with that key violates the unique
      constraint (Prisma's P2002). */
  predicate KeyTaken<V, K(==)>(m: map<Id, V>, key: V -> K, k: K) {
    exists a :: a in m && key(m[a]) == k
  }

  /** The unique constraints the services' conflict messages name. */
  function EventKey(e: Event): (string, int) { (e.title, e.startAt) }
  function RegistrationKey(r: Registration): (Id, Id) { (r.userId, r.eventId) }
  function TicketKey(t: Ticket): Id { t.registrationId }
  function UserKey(u: User): string { u.email }

  /** The registrations for `eventId`. */
  function EventRegistrations(t: Tables, eventId: Id): set<Id> {
    set r | r in t.registrations && t.registrations[r].eventId == eventId
  }

  /** `_count.registrations` of an event. */
  function RegistrationCount(t: Tables, eventId: Id): nat {
    |EventRegistrations(t, eventId)|
  }

  /** The tickets holding a seat of `eventId`: ISSUED or USED, through a registration for it. */
  function LiveTickets(t: Tables, eventId: Id): set<Id> {
    set k | k in t.tickets && IsLive(t.tickets[k].status)
                           && t.tickets[k].registrationId in EventRegistrations(t, eventId)
  }

  /** The count `createTicket` compares with the capacity. */
  function LiveCount(t: Tables, eventId: Id): nat {
    |LiveTickets(t, eventId)|
  }

  /** Counts depend on the registrations and tickets only. */
  lemma CountsFrame(t: Tables, t': Tables, eventId: Id)
    requires t'.registrations == t.registrations && t'.tickets == t.tickets
    ensures LiveCount(t', eventId) == LiveCount(t, eventId)
    ensures RegistrationCount(t', eventId) == RegistrationCount(t, eventId)
  {
  }

  /** Event `e`, if it exists, has not given away more seats than it has. */
  ghost predicate SeatsWithin(t: Tables, e: Id) {
    e in t.events ==> LiveCount(t, e) <= t.events[e].capacity
  }

  /** No event has given away more seats than it has. The quantifier fires on
      `SeatsWithin` terms only, so a proof about one event names that event. */
  ghost predicate WithinCapacity(t: Tables) {
    forall e :: SeatsWithin(t, e)
  }

  /** A new ticket takes one seat of its registration's event when it is live, and no
      seat of any other event. */
  lemma LiveCountAfterIssue(t: Tables, id: Id, ticket: Ticket, eventId: Id)
    requires id !in t.tickets && ticket.registrationId in t.registrations
    ensures var t' := t.(tickets := t.tickets[id := ticket]);
      LiveCount(t', eventId) == LiveCount(t, eventId)
        + (if IsLive(ticket.status) && t.registrations[ticket.registrationId].eventId == eventId then 1 else 0)
  {
    LiveTicketsAfterIssue(t, id, ticket, eventId);
  }

  /** The new ticket joins the live tickets of its event exactly when it is live. */
  lemma LiveTicketsAfterIssue(t: Tables, id: Id, ticket: Ticket, eventId: Id)
    requires id !in t.tickets && ticket.registrationId in t.registrations
    ensures var t' := t.(tickets := t.tickets[id := ticket]);
      LiveTickets(t', eventId) == LiveTickets(t, eventId)
        + (if IsLive(ticket.status) && t.registrations[ticket.registrationId].eventId == eventId then {id} else {})
  {
    var t' := t.(tickets := t.tickets[id := ticket]);
    assert EventRegistrations(t', eventId) == EventRegistrations(t, eventId);
  }

  /** Changing a registration's status (PENDING to CONFIRMED) moves no seat. */
  lemma LiveCountAfterStatusChange(t: Tables, r: Id, status: RegistrationStatus, eventId: Id)
    requires r in t.registrations
    ensures LiveCount(t.(registrations := t.registrations[r := t.registrations[r].(status := status)]), eventId)
            == LiveCount(t, eventId)
  {
    var t' := t.(registrations := t.registrations[r := t.registrations[r].(status := status)]);
    assert EventRegistrations(t', eventId) == EventRegistrations(t, eventId);
    assert LiveTickets(t', eventId) == LiveTickets(t, eventId);
  }

  /** A new registration has no ticket yet, so it moves no seat; it adds one to its own
      event's registration count and nothing to any other event's. */
  lemma CountsAfterRegistration(t: Tables, id: Id, reg: Registration, eventId: Id)
    requires id !in t.registrations && ForeignKeysHold(t)
    ensures var t' := t.(registrations := t.registrations[id := reg]);
      && LiveCount(t', eventId) == LiveCount(t, eventId)
      && RegistrationCount(t', eventId) == RegistrationCount(t, eventId) + (if reg.eventId == eventId then 1 else 0)
  {
    RegistrationsAfterInsert(t, id, reg, eventId);
    LiveTicketsAfterRegistration(t, id, reg, eventId);
  }

  /** The new registration joins its own event's registrations only. */
  lemma RegistrationsAfterInsert(t: Tables, id: Id, reg: Registration, eventId: Id)
    requires id !in t.registrations
    ensures EventRegistrations(t.(registrations := t.registrations[id := reg]), eventId)
            == EventRegistrations(t, eventId) + (if reg.eventId == eventId then {id} else {})
  {
  }

  /** No existing ticket points at a new registration. */
  lemma LiveTicketsAfterRegistration(t: Tables, id: Id, reg: Registration, eventId: Id)
    requires id !in t.registrations && ForeignKeysHold(t)
    ensures LiveTickets(t.(registrations := t.registrations[id := reg]), eventId) == LiveTickets(t, eventId)
  {
    var t' := t.(registrations := t.registrations[id := reg]);
    forall k | k in t.tickets ensures t.tickets[k].registrationId != id {
      assert t.tickets[k].registrationId in t.registrations;
    }
    assert LiveTickets(t', eventId) == LiveTickets(t, eventId);
  }

  /** The rows `deleteEvent`'s transaction leaves: without the tickets of the event's
      registrations, without those registrations, and without the event. */
  function DeleteEventRows(t: Tables, id: Id): (r: Tables)
    ensures r.users == t.users && r.organizers == t.organizers && r.venues == t.venues
    ensures r.events == t.events - {id}
    ensures forall reg :: reg in r.registrations <==> reg in t.registrations && t.registrations[reg].eventId != id
    ensures forall reg :: reg in r.registrations ==> r.registrations[reg] == t.registrations[reg]
    ensures forall k :: k in r.tickets <==> k in t.tickets && t.tickets[k].registrationId !in EventRegistrations(t, id)
    ensures forall k :: k in r.tickets ==> r.tickets[k] == t.tickets[k]
  {
    var regs := EventRegistrations(t, id);
    t.(tickets := map k | k in t.tickets && t.tickets[k].registrationId !in regs :: t.tickets[k],
       registrations := map reg | reg in t.registrations && t.registrations[reg].eventId != id :: t.registrations[reg],
       events := map e | e in t.events && e != id :: t.events[e])
  }

  /** The cascade keeps the foreign keys, leaves nothing that belonged to the event, and
      leaves every other event's rows and counts as they were. */
  lemma DeleteEventRowsProperties(t: Tables, id: Id, other: Id)
    requires ForeignKeysHold(t) && other != id
    ensures var r := DeleteEventRows(t, id);
      && ForeignKeysHold(r)
      && EventRegistrations(r, id) == {}
      && (forall k :: k in r.tickets ==> r.registrations[r.tickets[k].registrationId].eventId != id)
      && (other in t.events ==> other in r.events && r.events[other] == t.events[other])
      && EventRegistrations(r, other) == EventRegistrations(t, other)
      && LiveTickets(r, other) == LiveTickets(t, other)
      && (forall reg :: reg in EventRegistrations(t, other) ==>
            reg in r.registrations && r.registrations[reg] == t.registrations[reg])
      && (forall k :: k in t.tickets && t.tickets[k].registrationId in EventRegistrations(t, other) ==>
            k in r.tickets && r.tickets[k] == t.tickets[k])
  {
    var r := DeleteEventRows(t, id);
    assert EventRegistrations(r, other) == EventRegistrations(t, other);
    forall k | k in LiveTickets(t, other) ensures k in r.tickets {
      assert t.tickets[k].registrationId !in EventRegistrations(t, id);
    }
  }

  // ---------------------------------------------------------------- invariant

  /** Every identifier in the tables is below the counter. */
  ghost predicate IdsBelow(t: Tables, bound: nat) {
    && KeysBelow(t.users, bound) && KeysBelow(t.organizers, bound) && KeysBelow(t.venues, bound)
    && KeysBelow(t.events, bound) && KeysBelow(t.registrations, bound) && KeysBelow(t.tickets, bound)
  }

  /** The schema's unique constraints: one user per email, one organizer and one venue per
      key, one event per title and start, one registration per user and event, one
      ticket per registration. */
  ghost predicate Unique(t: Tables, organizerKey: Organizer -> string, venueKey: Venue -> string) {
    && UniqueBy(t.users, UserKey) && UniqueBy(t.organizers, organizerKey) && UniqueBy(t.venues, venueKey)
    && UniqueBy(t.events, EventKey) && UniqueBy(t.registrations, RegistrationKey) && UniqueBy(t.tickets, TicketKey)
  }

  /** Every event ends after it starts. */
  ghost predicate EventsOrdered(t: Tables) {
    forall e :: e in t.events ==> t.events[e].startAt < t.events[e].endAt
  }

  /** What the relational services keep true of the tables. */
  ghost predicate Consistent(t: Tables, bound: nat, organizerKey: Organizer -> string, venueKey: Venue -> string) {
    && IdsBelow(t, bound) && ForeignKeysHold(t) && Unique(t, organizerKey, venueKey)
    && EventsOrdered(t) && WithinCapacity(t)
  }

  /** Inserting a row under a key no row has keeps the constraint. */
  lemma UniqueByInsert<V, K>(m: map<Id, V>, key: V -> K, id: Id, v: V)
    requires UniqueBy(m, key) && id !in m && !KeyTaken(m, key, key(v))
    ensures UniqueBy(m[id := v], key)
  {
    var m' := m[id := v];
    forall a, b | a in m' && b in m' && a != b ensures key(m'[a]) != key(m'[b]) {
      if a == id {
        assert key(m[b]) != key(v);
      } else if b == id {
        assert key(m[a]) != key(v);
      }
    }
  }

  /** Handing out more identifiers keeps the tables consistent. */
  lemma ConsistentBelowMore(t: Tables, bound: nat, bound': nat, organizerKey: Organizer -> string, venueKey: Venue -> string)
    requires Consistent(t, bound, organizerKey, venueKey) && bound <= bound'
    ensures Consistent(t, bound', organizerKey, venueKey)
  {
  }

  /** `createUser` keeps the tables consistent. */
  lemma ConsistentAfterNewUser(t: Tables, bound: nat, organizerKey: Organizer -> string, venueKey: Venue -> string, u: User)
    requires Consistent(t, bound, organizerKey, venueKey) && !KeyTaken(t.users, UserKey, UserKey(u))
    ensures Consistent(t.(users := t.users[bound := u]), bound + 1, organizerKey, venueKey)
  {
    UniqueByInsert(t.users, UserKey, bound, u);
    var t' := t.(users := t.users[bound := u]);
    forall e ensures SeatsWithin(t', e) {
      CountsFrame(t, t', e);
      assert SeatsWithin(t, e);
    }
  }

  /** `createOrganizer` keeps the tables consistent. */
  lemma ConsistentAfterNewOrganizer(t: Tables, bound: nat, organizerKey: Organizer -> string, venueKey: Venue -> string, o: Organizer)
    requires Consistent(t, bound, organizerKey, venueKey) && !KeyTaken(t.organizers, organizerKey, organizerKey(o))
    ensures Consistent(t.(organizers := t.organizers[bound := o]), bound + 1, organizerKey, venueKey)
  {
    UniqueByInsert(t.organizers, organizerKey, bound, o);
    var t' := t.(organizers := t.organizers[bound := o]);
    forall e ensures SeatsWithin(t', e) {
      CountsFrame(t, t', e);
      assert SeatsWithin(t, e);
    }
  }

  /** `createVenue` keeps the tables consistent. */
  lemma ConsistentAfterNewVenue(t: Tables, bound: nat, organizerKey: Organizer -> string, venueKey: Venue -> string, v: Venue)
    requires Consistent(t, bound, organizerKey, venueKey) && !KeyTaken(t.venues, venueKey, venueKey(v))
    ensures Consistent(t.(venues := t.venues[bound := v]), bound + 1, organizerKey, venueKey)
  {
    UniqueByInsert(t.venues, venueKey, bound, v);
    var t' := t.(venues := t.venues[bound := v]);
    forall e ensures SeatsWithin(t', e) {
      CountsFrame(t, t', e);
      assert SeatsWithin(t, e);
    }
  }

  /** `deleteOrganizer` keeps the tables consistent: it only removes an organizer no
      event names. */
  lemma ConsistentAfterOrganizerRemoved(t: Tables, bound: nat, organizerKey: Organizer -> string, venueKey: Venue -> string, id: Id)
    requires Consistent(t, bound, organizerKey, venueKey)
    requires forall e :: e in t.events ==> t.events[e].organizerId != id
    ensures Consistent(t.(organizers := t.organizers - {id}), bound, organizerKey, venueKey)
  {
    var t' := t.(organizers := t.organizers - {id});
    assert IdsBelow(t', bound);
    assert ForeignKeysHold(t');
    assert Unique(t', organizerKey, venueKey) by {
      assert UniqueBy(t'.organizers, organizerKey);
    }
    assert WithinCapacity(t') by {
      forall e ensures SeatsWithin(t', e) {
        CountsFrame(t, t', e);
        assert SeatsWithin(t, e);
      }
    }
  }

  /** `deleteVenue` keeps the tables consistent: it only removes a venue no event uses. */
  lemma ConsistentAfterVenueRemoved(t: Tables, bound: nat, organizerKey: Organizer -> string, venueKey: Venue -> string, id: Id)
    requires Consistent(t, bound, organizerKey, venueKey)
    requires forall e :: e in t.events ==> t.events[e].venueId != id
    ensures Consistent(t.(venues := t.venues - {id}), bound, organizerKey, venueKey)
  {
    var t' := t.(venues := t.venues - {id});
    assert IdsBelow(t', bound);
    assert ForeignKeysHold(t');
    assert Unique(t', organizerKey, venueKey) by {
      assert UniqueBy(t'.venues, venueKey);
    }
    assert WithinCapacity(t') by {
      forall e ensures SeatsWithin(t', e) {
        CountsFrame(t, t', e);
        assert SeatsWithin(t, e);
      }
    }
  }

  /** `createEvent` keeps the tables consistent: the new event has an organizer and a
      venue, ends after it starts, and has no registration and so no ticket yet. */
  lemma ConsistentAfterNewEvent(t: Tables, bound: nat, organizerKey: Organizer -> string, venueKey: Venue -> string, ev: Event)
    requires Consistent(t, bound, organizerKey, venueKey)
    requires ev.organizerId in t.organizers && ev.venueId in t.venues && ev.startAt < ev.endAt
    requires !KeyTaken(t.events, EventKey, EventKey(ev))
    ensures Consistent(t.(events := t.events[bound := ev]), bound + 1, organizerKey, venueKey)
    ensures RegistrationCount(t.(events := t.events[bound := ev]), bound) == 0
  {
    UniqueByInsert(t.events, EventKey, bound, ev);
    var t' := t.(events := t.events[bound := ev]);
    assert EventRegistrations(t, bound) == {};
    forall e ensures SeatsWithin(t', e) {
      CountsFrame(t, t', e);
      assert SeatsWithin(t, e);
    }
  }

  /** `createRegistration` keeps the tables consistent: the new registration has no
      ticket, so no event's seat count moves. */
  lemma ConsistentAfterNewRegistration(t: Tables, bound: nat, organizerKey: Organizer -> string, venueKey: Venue -> string, reg: Registration)
    requires Consistent(t, bound, organizerKey, venueKey)
    requires reg.eventId in t.events && reg.userId in t.users
    requires !KeyTaken(t.registrations, RegistrationKey, RegistrationKey(reg))
    ensures Consistent(t.(registrations := t.registrations[bound := reg]), bound + 1, organizerKey, venueKey)
  {
    UniqueByInsert(t.registrations, RegistrationKey, bound, reg);
    var t' := t.(registrations := t.registrations[bound := reg]);
    forall e ensures SeatsWithin(t', e) {
      CountsAfterRegistration(t, bound, reg, e);
      assert SeatsWithin(t, e);
    }
  }

  /** The rows `createTicket`'s transaction leaves: the ticket under `id`, and its
      registration CONFIRMED if it was PENDING. */
  function IssueTicket(t: Tables, id: Id, ticket: Ticket): (r: Tables)
    requires ticket.registrationId in t.registrations
    ensures r.users == t.users && r.organizers == t.organizers && r.venues == t.venues && r.events == t.events
    ensures r.tickets == t.tickets[id := ticket]
    ensures r.registrations.Keys == t.registrations.Keys
    ensures forall k :: k in t.registrations && k != ticket.registrationId ==> r.registrations[k] == t.registrations[k]
    ensures r.registrations[ticket.registrationId] ==
              t.registrations[ticket.registrationId].(status :=
                if t.registrations[ticket.registrationId].status == PENDING then CONFIRMED
                else t.registrations[ticket.registrationId].status)
  {
    var reg := t.registrations[ticket.registrationId];
    var issued := t.(tickets := t.tickets[id := ticket]);
    if reg.status == PENDING then
      issued.(registrations := issued.registrations[ticket.registrationId := reg.(status := CONFIRMED)])
    else issued
  }

  /** A new ticket takes one seat of its registration's event when it is live, and no
      seat of any other event; the registration's confirmation moves none. */
  lemma LiveCountAfterTicket(t: Tables, id: Id, ticket: Ticket, eventId: Id)
    requires id !in t.tickets && ticket.registrationId in t.registrations
    ensures LiveCount(IssueTicket(t, id, ticket), eventId) == LiveCount(t, eventId)
              + (if IsLive(ticket.status) && t.registrations[ticket.registrationId].eventId == eventId then 1 else 0)
  {
    var issued := t.(tickets := t.tickets[id := ticket]);
    LiveCountAfterIssue(t, id, ticket, eventId);
    var reg := t.registrations[ticket.registrationId];
    if reg.status == PENDING {
      LiveCountAfterStatusChange(issued, ticket.registrationId, CONFIRMED, eventId);
    }
  }

  /** `createTicket` keeps the tables consistent: it issues a ticket only for a
      registration without one and only while the event has a free seat. */
  lemma ConsistentAfterTicket(t: Tables, bound: nat, organizerKey: Organizer -> string, venueKey: Venue -> string, ticket: Ticket)
    requires Consistent(t, bound, organizerKey, venueKey)
    requires ticket.registrationId in t.registrations
    requires LiveCount(t, t.registrations[ticket.registrationId].eventId)
               < t.events[t.registrations[ticket.registrationId].eventId].capacity
    requires !KeyTaken(t.tickets, TicketKey, TicketKey(ticket))
    ensures Consistent(IssueTicket(t, bound, ticket), bound + 1, organizerKey, venueKey)
  {
    IssueTicketKeepsRows(t, bound, organizerKey, venueKey, ticket);
    var t' := IssueTicket(t, bound, ticket);
    forall e ensures SeatsWithin(t', e) {
      LiveCountAfterTicket(t, bound, ticket, e);
      assert SeatsWithin(t, e);
    }
  }

  /** The identifier, foreign-key, unique and ordering parts of `ConsistentAfterTicket`. */
  lemma IssueTicketKeepsRows(t: Tables, bound: nat, organizerKey: Organizer -> string, venueKey: Venue -> string, ticket: Ticket)
    requires IdsBelow(t, bound) && ForeignKeysHold(t) && Unique(t, organizerKey, venueKey) && EventsOrdered(t)
    requires ticket.registrationId in t.registrations
    requires !KeyTaken(t.tickets, TicketKey, TicketKey(ticket))
    ensures var t' := IssueTicket(t, bound, ticket);
      IdsBelow(t', bound + 1) && ForeignKeysHold(t') && Unique(t', organizerKey, venueKey) && EventsOrdered(t')
  {
    var t' := IssueTicket(t, bound, ticket);
    UniqueByInsert(t.tickets, TicketKey, bound, ticket);
    assert UniqueBy(t'.registrations, RegistrationKey) by {
      forall a, b | a in t'.registrations && b in t'.registrations
                    && RegistrationKey(t'.registrations[a]) == RegistrationKey(t'.registrations[b])
        ensures a == b
      {
        assert RegistrationKey(t'.registrations[a]) == RegistrationKey(t.registrations[a]);
        assert RegistrationKey(t'.registrations[b]) == RegistrationKey(t.registrations[b]);
      }
    }
    assert IdsBelow(t', bound + 1);
    assert ForeignKeysHold(t');
  }

  /** `deleteEvent`'s cascade keeps the tables consistent. */
  lemma ConsistentAfterEventDeleted(t: Tables, bound: nat, organizerKey: Organizer -> string, venueKey: Venue -> string, id: Id)
    requires Consistent(t, bound, organizerKey, venueKey)
    ensures Consistent(DeleteEventRows(t, id), bound, organizerKey, venueKey)
  {
    var r := DeleteEventRows(t, id);
    DeleteEventRowsProperties(t, id, id + 1);
    SubmapKeeps(t.events, r.events, EventKey, bound);
    SubmapKeeps(t.registrations, r.registrations, RegistrationKey, bound);
    SubmapKeeps(t.tickets, r.tickets, TicketKey, bound);
    forall e ensures SeatsWithin(r, e) {
      if e != id {
        DeleteEventRowsProperties(t, id, e);
        assert SeatsWithin(t, e);
      }
    }
  }

  /** Removing rows from a table keeps its unique constraint and its identifier bound. */
  lemma SubmapKeeps<V, K>(m: map<Id, V>, m': map<Id, V>, key: V -> K, bound: nat)
    requires UniqueBy(m, key) && KeysBelow(m, bound)
    requires forall k :: k in m' ==> k in m && m'[k] == m[k]
    ensures UniqueBy(m', key) && KeysBelow(m', bound)
  {
    forall a, b | a in m' && b in m' && a != b ensures key(m'[a]) != key(m'[b]) {
      assert key(m[a]) != key(m[b]);
    }
  }

  // ---------------------------------------------------------------- listings

  /** The rows of `m` with identifiers below `bound`, in identifier (insertion) order,
      each once. */
  function Rows<V(!new)>(m: map<Id, V>, bound: nat): (r: seq<(Id, V)>)
    ensures forall row :: row in r <==> row.0 in m && row.0 < bound && m[row.0] == row.1
    ensures forall i, j :: 0 <= i < j < |r| ==> r[i].0 < r[j].0
    decreases bound
  {
    if bound == 0 then []
    else
      var prev := Rows(m, bound - 1);
      var k := bound - 1;
      if k in m then
        assert forall row :: row in prev + [(k, m[k])] <==> row in prev || row == (k, m[k]);
        prev + [(k, m[k])]
      else prev
  }

  /** The rows of `m` below `bound`, in the order `le` asks for; rows `le` does not
      separate keep identifier order. */
  function SortedRows<V(!new)>(m: map<Id, V>, bound: nat, le: ((Id, V), (Id, V)) -> bool): (r: seq<(Id, V)>)
    requires TotalPreorder(le)
    ensures SortedBy(r, le)
    ensures multiset(r) == multiset(Rows(m, bound))
    ensures forall row :: row in r <==> row.0 in m && row.0 < bound && m[row.0] == row.1
  {
    SortBySorted(Rows(m, bound), le);
    SortByMembers(Rows(m, bound), le);
    SortBy(Rows(m, bound), le)
  }

  predicate OrganizerNameLe(a: (Id, Organizer), b: (Id, Organizer)) {
    StrLe(a.1.name, b.1.name)
  }

  predicate VenueNameLe(a: (Id, Venue), b: (Id, Venue)) {
    StrLe(a.1.name, b.1.name)
  }

  predicate UserCreatedLe(a: (Id, User), b: (Id, User)) {
    a.1.createdAt <= b.1.createdAt
  }

  predicate EventStartLe(a: (Id, Event), b: (Id, Event)) {
    a.1.startAt <= b.1.startAt
  }

  lemma OrganizerNameLeTotal()
    ensures TotalPreorder(OrganizerNameLe)
  {
    forall a: (Id, Organizer), b: (Id, Organizer) ensures OrganizerNameLe(a, b) || OrganizerNameLe(b, a) {
      StrLeTotal(a.1.name, b.1.name);
    }
    forall a: (Id, Organizer), b: (Id, Organizer), c: (Id, Organizer) | OrganizerNameLe(a, b) && OrganizerNameLe(b, c)
      ensures OrganizerNameLe(a, c)
    {
      StrLeTransitive(a.1.name, b.1.name, c.1.name);
    }
  }

  lemma VenueNameLeTotal()
    ensures TotalPreorder(VenueNameLe)
  {
    forall a: (Id, Venue), b: (Id, Venue) ensures VenueNameLe(a, b) || VenueNameLe(b, a) {
      StrLeTotal(a.1.name, b.1.name);
    }
    forall a: (Id, Venue), b: (Id, Venue), c: (Id, Venue) | VenueNameLe(a, b) && VenueNameLe(b, c)
      ensures VenueNameLe(a, c)
    {
      StrLeTransitive(a.1.name, b.1.name, c.1.name);
    }
  }

  /** `listOrganizers`: every organizer once, by name ascending. */
  function ListOrganizers(organizers: map<Id, Organizer>, bound: nat): (r: seq<(Id, Organizer)>)
    ensures forall i, j :: 0 <= i < j < |r| ==> StrLe(r[i].1.name, r[j].1.name)
    ensures multiset(r) == multiset(Rows(organizers, bound))
    ensures forall row :: row in r <==> row.0 in organizers && row.0 < bound && organizers[row.0] == row.1
  {
    OrganizerNameLeTotal();
    SortedRows(organizers, bound, OrganizerNameLe)
  }

  /** `listVenues`: every venue once, by name ascending. */
  function ListVenues(venues: map<Id, Venue>, bound: nat): (r: seq<(Id, Venue)>)
    ensures forall i, j :: 0 <= i < j < |r| ==> StrLe(r[i].1.name, r[j].1.name)
    ensures multiset(r) == multiset(Rows(venues, bound))
    ensures forall row :: row in r <==> row.0 in venues && row.0 < bound && venues[row.0] == row.1
  {
    VenueNameLeTotal();
    SortedRows(venues, bound, VenueNameLe)
  }

  /** `listUsers`: every user once, oldest first. */
  function ListUsers(users: map<Id, User>, bound: nat): (r: seq<(Id, User)>)
    ensures forall i, j :: 0 <= i < j < |r| ==> r[i].1.createdAt <= r[j].1.createdAt
    ensures multiset(r) == multiset(Rows(users, bound))
    ensures forall row :: row in r <==> row.0 in users && row.0 < bound && users[row.0] == row.1
  {
    assert TotalPreorder(UserCreatedLe);
    SortedRows(users, bound, UserCreatedLe)
  }

  /** An event as `listEvents` returns it. */
  datatype EventListing = EventListing(id: Id, event: Event, registrationCount: nat)

  /** The rows the `upcoming` filter keeps: those starting at `now` or later. */
  function StartingFrom(rows: seq<(Id, Event)>, now: int): (r: seq<(Id, Event)>)
    ensures forall row :: row in r <==> row in rows && row.1.startAt >= now
    ensures Distinct(rows) ==> Distinct(r)
    decreases |rows|
  {
    if rows == [] then []
    else
      assert rows == [rows[0]] + rows[1..];
      assert Distinct(rows) ==> Distinct(rows[1..]) && rows[0] !in rows[1..];
      var rest := StartingFrom(rows[1..], now);
      if rows[0].1.startAt >= now then [rows[0]] + rest else rest
  }

  /** The event rows `listEvents` reads: all of them, or with `upcoming` only those
      starting at `now` or later (`upcoming ? { startAt: { gte: now } } : undefined`). */
  function SelectedEvents(events: map<Id, Event>, bound: nat, upcoming: Option<bool>, now: int): (r: seq<(Id, Event)>)
    ensures forall row :: row in r <==> && row.0 in events && row.0 < bound && events[row.0] == row.1
                                        && (upcoming == Some(true) ==> row.1.startAt >= now)
    ensures Distinct(r)
  {
    var rows := Rows(events, bound);
    if upcoming == Some(true) then StartingFrom(rows, now) else rows
  }

  /** `orderBy: { startAt: 'asc' }`. */
  function ByStart(rows: seq<(Id, Event)>): (r: seq<(Id, Event)>)
    ensures forall i, j :: 0 <= i < j < |r| ==> r[i].1.startAt <= r[j].1.startAt
    ensures multiset(r) == multiset(rows)
    ensures forall row :: row in r <==> row in rows
    ensures Distinct(rows) ==> Distinct(r)
  {
    assert TotalPreorder(EventStartLe);
    SortBySorted(rows, EventStartLe);
    var r := SortBy(rows, EventStartLe);
    assert Distinct(rows) ==> Distinct(r) by {
      if Distinct(rows) {
        PermutationKeepsDistinct(r, rows);
      }
    }
    forall row ensures row in r <==> row in rows {
      assert row in r <==> row in multiset(r);
      assert row in rows <==> row in multiset(rows);
    }
    r
  }

  /** Attaches `_count.registrations` to every row. */
  function WithCounts(t: Tables, rows: seq<(Id, Event)>): (r: seq<EventListing>)
    ensures |r| == |rows|
    ensures forall i :: 0 <= i < |r| ==> r[i] == EventListing(rows[i].0, rows[i].1, RegistrationCount(t, rows[i].0))
  {
    seq(|rows|, i requires 0 <= i < |rows| => EventListing(rows[i].0, rows[i].1, RegistrationCount(t, rows[i].0)))
  }

  /** Rows without repeats, each holding the event its identifier names, are listed
      under distinct identifiers. */
  lemma ListingIdsDistinct(t: Tables, rows: seq<(Id, Event)>)
    requires Distinct(rows)
    requires forall row :: row in rows ==> row.0 in t.events && t.events[row.0] == row.1
    ensures var r := WithCounts(t, rows);
            forall i, j :: 0 <= i < j < |r| ==> r[i].id != r[j].id
  {
    forall i, j | 0 <= i < j < |rows| ensures rows[i].0 != rows[j].0 {
      assert rows[i] in rows && rows[j] in rows;
    }
  }

  /** The rows that pass the `listEvents` filter, each listed with its count; every
      row that passes is listed. */
  lemma ListingMembers(t: Tables, rows: seq<(Id, Event)>, bound: nat, upcoming: Option<bool>, now: int)
    requires forall row :: row in rows <==> && row.0 in t.events && row.0 < bound && t.events[row.0] == row.1
                                            && (upcoming == Some(true) ==> row.1.startAt >= now)
    ensures var r := WithCounts(t, rows);
      && (forall i :: 0 <= i < |r| ==>
            && r[i].id in t.events && r[i].id < bound && r[i].event == t.events[r[i].id]
            && r[i].registrationCount == RegistrationCount(t, r[i].id)
            && (upcoming == Some(true) ==> r[i].event.startAt >= now))
      && (forall id :: id in t.events && id < bound && (upcoming == Some(true) ==> t.events[id].startAt >= now)
            ==> exists i :: 0 <= i < |r| && r[i].id == id)
  {
    var r := WithCounts(t, rows);
    assert forall i :: 0 <= i < |r| ==> rows[i] in rows;
    forall id | id in t.events && id < bound && (upcoming == Some(true) ==> t.events[id].startAt >= now)
      ensures exists i :: 0 <= i < |r| && r[i].id == id
    {
      assert (id, t.events[id]) in rows;
      var i :| 0 <= i < |rows| && rows[i] == (id, t.events[id]);
      assert r[i].id == id;
    }
  }

  /** `listEvents`: the events (only those starting at `now` or later when `upcoming` is
      true), by start time ascending, each with its number of registrations. */
  function ListEvents(t: Tables, bound: nat, upcoming: Option<bool>, now: int): (r: seq<EventListing>)
    ensures forall i :: 0 <= i < |r| ==>
              && r[i].id in t.events && r[i].id < bound && r[i].event == t.events[r[i].id]
              && r[i].registrationCount == RegistrationCount(t, r[i].id)
              && (upcoming == Some(true) ==> r[i].event.startAt >= now)
    ensures forall id :: id in t.events && id < bound && (upcoming == Some(true) ==> t.events[id].startAt >= now)
              ==> exists i :: 0 <= i < |r| && r[i].id == id
    ensures forall i, j :: 0 <= i < j < |r| ==> r[i].event.startAt <= r[j].event.startAt
    ensures forall i, j :: 0 <= i < j < |r| ==> r[i].id != r[j].id
  {
    var sorted := ByStart(SelectedEvents(t.events, bound, upcoming, now));
    ListingMembers(t, sorted, bound, upcoming, now);
    ListingIdsDistinct(t, sorted);
    WithCounts(t, sorted)
  }
}

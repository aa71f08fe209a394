/** The rows of the relational store and their status enumerations. */
module Entities {
  import opened Common

  datatype UserRole = ADMIN | USER
  datatype EventStatus = DRAFT | PUBLISHED | CLOSED
  datatype RegistrationStatus = PENDING | CONFIRMED | CANCELLED
  datatype TicketStatus = ISSUED | USED | REFUNDED

  /** A user; `createdAt` is the clock reading at insertion, in milliseconds. */
  datatype User = User(name: string, email: string, role: UserRole, createdAt: int)

  datatype Organizer = Organizer(name: string)

  datatype Venue = Venue(name: string, address: string)

  /** An event; times are milliseconds since the epoch. */
  datatype Event = Event(
    title: string,
    description: Option<string>,
    startAt: int,
    endAt: int,
    capacity: nat,
    status: EventStatus,
    organizerId: Id,
    venueId: Id)

  datatype Registration = Registration(userId: Id, eventId: Id, status: RegistrationStatus, createdAt: int)

  /** A ticket; the price is stored as given (nothing computes on it). */
  datatype Ticket = Ticket(registrationId: Id, price: real, status: TicketStatus, purchasedAt: int)

  /** ISSUED and USED tickets hold a seat; REFUNDED ones do not. */
  predicate IsLive(s: TicketStatus) {
    s == ISSUED || s == USED
  }
}

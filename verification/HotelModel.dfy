/**
  Rooms, reservations and the rules of the hotel service
  (services/hotel/src/reservation/reservation.service.ts, services/hotel/src/rooms/rooms.service.ts).
  A reservation's id is its place in the table; a room's id is an integer, because only the order
  of ids matters.
 */
module HotelModel {
  import opened Wrappers

  datatype RoomType = Standard | Deluxe | Suite

  datatype Room = Room(id: int, kind: RoomType, capacity: int)

  datatype Status = Confirmed | Cancelled

  datatype Reservation = Reservation(
    guest: string,
    party: seq<string>,
    room: int,
    guestCount: int,
    checkIn: int,
    checkOut: int,
    status: Status)

  datatype Request = Request(
    guest: string,
    party: Option<seq<string>>,
    kind: RoomType,
    guestCount: int,
    checkIn: int,
    checkOut: int)

  datatype Refusal =
    | BadDays
    | EmptyParty
    | BlankMember
    | RepeatedMember
    | BookerMissing
    | NotCleared(guest: string)
    | OverCapacity
    | NoRoom

  datatype Result<T> = Ok(value: T) | Refused(why: Refusal)

  /** What the airport knows of guests; an absent guest is unknown and not held back. */
  type Clearance = map<string, bool>

  /** The guests of a booking, and how many a room must take. */
  datatype Party = Party(members: seq<string>, heads: int)

  // ---------------------------------------------------------------- the rules

  function ResolveParty(q: Request): Result<Party> {
    match q.party
    case None => Ok(Party([q.guest], q.guestCount))
    case Some(members) =>
      if members == [] then Refused(EmptyParty)
      else if "" in members then Refused(BlankMember)
      else if |set m | m in members| != |members| then Refused(RepeatedMember)
      else if q.guest !in members then Refused(BookerMissing)
      else Ok(Party(members, |members|))
  }

  /** A confirmed reservation whose half-open stay meets the days `[from, to)`. */
  predicate Meets(r: Reservation, from: int, to: int) {
    r.status == Confirmed && r.checkIn < to && r.checkOut > from
  }

  predicate Taken(rs: seq<Reservation>, room: int, from: int, to: int) {
    exists i :: 0 <= i < |rs| && rs[i].room == room && Meets(rs[i], from, to)
  }

  predicate Eligible(room: Room, kind: RoomType, heads: int) {
    room.kind == kind && heads <= room.capacity
  }

  /** The rooms table has a primary key and is read in its order. */
  ghost predicate Ordered(rooms: seq<Room>) {
    forall j, k :: 0 <= j < k < |rooms| ==> rooms[j].id < rooms[k].id
  }

  predicate CanStay(rooms: seq<Room>, rs: seq<Reservation>, q: Request, heads: int, k: nat)
    requires k < |rooms|
  {
    Eligible(rooms[k], q.kind, heads) && !Taken(rs, rooms[k].id, q.checkIn, q.checkOut)
  }

  /** Whether room `k` is the answer to a request that passed every other check. */
  predicate FirstFit(rooms: seq<Room>, rs: seq<Reservation>, q: Request, heads: int, k: nat) {
    && k < |rooms| && CanStay(rooms, rs, q, heads, k)
    && forall j :: 0 <= j < k ==> !CanStay(rooms, rs, q, heads, j)
  }

  function Booked(q: Request, members: seq<string>, room: Room): Reservation {
    Reservation(q.guest, members, room.id, q.guestCount, q.checkIn, q.checkOut, Confirmed)
  }

  // ---------------------------------------------------------------- occupancy

  predicate Covers(r: Reservation, day: int) {
    r.status == Confirmed && r.checkIn <= day < r.checkOut
  }

  /** How many guests the rooms view counts for a reservation. */
  function Heads(r: Reservation): int {
    if |r.party| > 1 then |r.party| else r.guestCount
  }

  function Occupancy(rs: seq<Reservation>, room: int, day: int): int {
    if rs == [] then 0
    else
      var r := rs[|rs| - 1];
      Occupancy(rs[..|rs| - 1], room, day) + if r.room == room && Covers(r, day) then Heads(r) else 0
  }

  // ---------------------------------------------------------------- events

  datatype HotelEvent =
    | ReservationConfirmed(id: nat, details: Reservation)
    | ReservationCancelled(id: nat, details: Reservation)

  datatype CancelAnswer = NotFound | IsCancelled(id: nat)
}

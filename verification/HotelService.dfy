/**
  Booking, cancelling and the rooms view (services/hotel/src/reservation/reservation.service.ts,
  lines 34-132 and 272-319; services/hotel/src/rooms/rooms.service.ts, lines 14-60).
 */
module HotelService {
  import opened Wrappers
  import opened HotelModel
  import opened HotelRuns

  class Hotel {
    const rooms: seq<Room>
    var reservations: seq<Reservation>
    var published: seq<HotelEvent>

    constructor (rooms: seq<Room>)
      requires Ordered(rooms)
      ensures this.rooms == rooms && reservations == [] && published == []
    {
      this.rooms := rooms;
      reservations, published := [], [];
    }

    method Create(q: Request, cleared: Clearance) returns (answer: Result<nat>)
      modifies this
      ensures var s := Step(rooms, old(reservations), Make(q, cleared));
              answer == s.answer.made && reservations == s.table && published == old(published) + s.events
    {
      NoneFoundIff(rooms, reservations, q, cleared);
      assert published + [] == published;
      if q.checkOut <= q.checkIn { return Refused(BadDays); }
      var resolved := ResolveParty(q);
      if resolved.Refused? { return Refused(resolved.why); }
      var party := resolved.value;
      var blocked := FindBlocked(party.members, cleared);
      if blocked.Some? { return Refused(NotCleared(blocked.value)); }
      var max := MaxCapacity(q.kind);
      if max.None? || party.heads > max.value { return Refused(OverCapacity); }
      var available := FindRoom(q, party.heads);
      if available.None? { return Refused(NoRoom); }
      var k := available.value;
      FirstFitIsUnique(rooms, reservations, q, party.heads, k);
      var reservation := Booked(q, party.members, rooms[k]);
      var id := |reservations|;
      reservations := reservations + [reservation];
      published := published + [ReservationConfirmed(id, reservation)];
      return Ok(id);
    }

    method FindBlocked(members: seq<string>, cleared: Clearance) returns (blocked: Option<string>)
      ensures blocked == FirstHeld(members, cleared)
      ensures blocked.None? <==> forall g :: g in members && g in cleared ==> cleared[g]
      ensures forall g :: blocked == Some(g) <==> exists i: nat :: IsFirstBlocked(members, cleared, i, g)
    {
      FirstHeldIs(members, cleared);
      for i := 0 to |members|
        invariant FirstHeld(members, cleared) == FirstHeld(members[i..], cleared)
        invariant forall j :: 0 <= j < i ==> members[j] in cleared ==> cleared[members[j]]
      {
        if members[i] in cleared && cleared[members[i]] == false { return Some(members[i]); }
      }
      return None;
    }

    /** `None` when there is no room of the kind: then even one guest is too many. */
    method MaxCapacity(kind: RoomType) returns (max: Option<int>)
      ensures max.None? <==> forall k :: 0 <= k < |rooms| ==> rooms[k].kind != kind
      ensures max.Some? ==> exists k :: 0 <= k < |rooms| && rooms[k].kind == kind && rooms[k].capacity == max.value
      ensures max.Some? ==> forall k :: 0 <= k < |rooms| && rooms[k].kind == kind ==> rooms[k].capacity <= max.value
    {
      max := None;
      for i := 0 to |rooms|
        invariant max.None? <==> forall k :: 0 <= k < i ==> rooms[k].kind != kind
        invariant max.Some? ==> exists k :: 0 <= k < i && rooms[k].kind == kind && rooms[k].capacity == max.value
        invariant max.Some? ==> forall k :: 0 <= k < i && rooms[k].kind == kind ==> rooms[k].capacity <= max.value
      {
        if rooms[i].kind == kind && (max.None? || rooms[i].capacity > max.value) { max := Some(rooms[i].capacity); }
      }
    }

    /** The scan over the rooms of the kind, in id order. */
    method FindRoom(q: Request, heads: int) returns (available: Option<nat>)
      ensures available.Some? ==> FirstFit(rooms, reservations, q, heads, available.value)
      ensures available.None? ==> forall k :: 0 <= k < |rooms| ==> !CanStay(rooms, reservations, q, heads, k)
    {
      for i := 0 to |rooms|
        invariant forall j :: 0 <= j < i ==> !CanStay(rooms, reservations, q, heads, j)
      {
        if rooms[i].kind != q.kind || heads > rooms[i].capacity { continue; }
        var overlapping := CountOverlapping(rooms[i].id, q.checkIn, q.checkOut);
        if overlapping == 0 { return Some(i); }
      }
      return None;
    }

    method CountOverlapping(room: int, from: int, to: int) returns (n: nat)
      ensures n == 0 <==> !Taken(reservations, room, from, to)
    {
      n := 0;
      for i := 0 to |reservations|
        invariant n == 0 <==> !Taken(reservations[..i], room, from, to)
      {
        TakenSnoc(reservations[..i], reservations[i], room, from, to);
        assert reservations[..i + 1] == reservations[..i] + [reservations[i]];
        if reservations[i].room == room && Meets(reservations[i], from, to) { n := n + 1; }
      }
      assert reservations[..|reservations|] == reservations;
    }

    method Cancel(id: nat) returns (answer: CancelAnswer)
      modifies this
      ensures var s := Step(rooms, old(reservations), Drop(id));
              answer == s.answer.dropped && reservations == s.table && published == old(published) + s.events
    {
      assert published + [] == published;
      if id >= |reservations| { return NotFound; }
      if reservations[id].status == Cancelled { return IsCancelled(id); }
      reservations := reservations[id := reservations[id].(status := Cancelled)];
      published := published + [ReservationCancelled(id, reservations[id])];
      return IsCancelled(id);
    }

    /** The rooms view: every room with the guests staying on `day`. */
    method FindAll(day: int) returns (view: seq<(Room, int)>)
      ensures |view| == |rooms|
      ensures forall k :: 0 <= k < |rooms| ==> view[k] == (rooms[k], Occupancy(reservations, rooms[k].id, day))
    {
      var guests: map<int, int> := map[];
      for i := 0 to |reservations|
        invariant forall room :: CountOf(guests, room) == Occupancy(reservations[..i], room, day)
      {
        var r := reservations[i];
        assert reservations[..i + 1][..i] == reservations[..i];
        if Covers(r, day) {
          guests := guests[r.room := CountOf(guests, r.room) + Heads(r)];
        }
      }
      assert reservations[..|reservations|] == reservations;
      view := [];
      for k := 0 to |rooms|
        invariant |view| == k
        invariant forall j :: 0 <= j < k ==> view[j] == (rooms[j], Occupancy(reservations, rooms[j].id, day))
      {
        view := view + [(rooms[k], CountOf(guests, rooms[k].id))];
      }
    }
  }

  function CountOf(guests: map<int, int>, room: int): int {
    if room in guests then guests[room] else 0
  }

  lemma TakenSnoc(rs: seq<Reservation>, r: Reservation, room: int, from: int, to: int)
    ensures Taken(rs + [r], room, from, to) <==> Taken(rs, room, from, to) || (r.room == room && Meets(r, from, to))
  {
    if Taken(rs, room, from, to) {
      var i :| 0 <= i < |rs| && rs[i].room == room && Meets(rs[i], from, to);
      assert (rs + [r])[i] == rs[i];
    }
    if r.room == room && Meets(r, from, to) { assert (rs + [r])[|rs|] == r; }
  }
}

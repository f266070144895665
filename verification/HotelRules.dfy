/**
  Which requests the hotel grants and why it refuses the others, written out for a reader of the
  table (services/hotel/src/reservation/reservation.service.ts, lines 34-204 and 272-319).
 */
module HotelRules {
  import opened Wrappers
  import opened HotelModel
  import opened HotelRuns
  import opened HotelLaws

  /** The members of a party and the number of guests the room must hold. Without an explicit party that is
      the booker and the stated count; an explicit party has named, different members, the booker among
      them, and counts by its members. */
  ghost predicate IsParty(q: Request, members: seq<string>, heads: int) {
    match q.party
    case None => members == [q.guest] && heads == q.guestCount
    case Some(ms) =>
      && members == ms && heads == |ms| && q.guest in ms && "" !in ms
      && forall i, j :: 0 <= i < j < |ms| ==> ms[i] != ms[j]
  }

  lemma PartyIff(q: Request, members: seq<string>, heads: int)
    ensures ResolveParty(q) == Ok(Party(members, heads)) <==> IsParty(q, members, heads)
  {
    if q.party.Some? { AllDifferentIff(q.party.value); }
  }

  ghost predicate Big(room: Room, q: Request, heads: int) {
    room.kind == q.kind && heads <= room.capacity
  }

  /** Every confirmed stay in the room ends before the request begins or begins after it ends. */
  ghost predicate FreeFor(room: Room, rs: seq<Reservation>, q: Request) {
    forall i :: 0 <= i < |rs| && rs[i].room == room.id && rs[i].status == Confirmed ==>
      rs[i].checkOut <= q.checkIn || q.checkOut <= rs[i].checkIn
  }

  /** Members the airport does not know do not count against a party. */
  ghost predicate AllCleared(members: seq<string>, cleared: Clearance) {
    forall g :: g in members && g in cleared ==> cleared[g]
  }

  lemma CanStayIff(rooms: seq<Room>, rs: seq<Reservation>, q: Request, heads: int)
    requires q.checkIn < q.checkOut
    ensures forall k: nat :: k < |rooms| ==>
              (CanStay(rooms, rs, q, heads, k) <==> Big(rooms[k], q, heads) && FreeFor(rooms[k], rs, q))
  {
  }

  /** The first room in the order of the ids that is big enough and free. */
  ghost predicate IsGranted(rooms: seq<Room>, rs: seq<Reservation>, q: Request, heads: int, n: nat) {
    && n < |rooms| && Big(rooms[n], q, heads) && FreeFor(rooms[n], rs, q)
    && forall k: nat :: k < n ==> !(Big(rooms[k], q, heads) && FreeFor(rooms[k], rs, q))
  }

  /** A request with good days and a good party is given room `n` exactly if nobody of the party is known
      not to have cleared and `n` is the first room that is big enough and free. */
  lemma GrantedExactly(rooms: seq<Room>, rs: seq<Reservation>, q: Request, cleared: Clearance, members: seq<string>,
        heads: int, n: nat)
    requires q.checkIn < q.checkOut && IsParty(q, members, heads)
    ensures Decide(rooms, rs, q, cleared) == Ok(n) <==>
            AllCleared(members, cleared) && IsGranted(rooms, rs, q, heads, n)
  {
    PartyIff(q, members, heads);
    FirstHeldIs(members, cleared);
    SearchFinds(rooms, rs, q, heads, 0);
    CanStayIff(rooms, rs, q, heads);
    if IsGranted(rooms, rs, q, heads, n) { FirstFitIsUnique(rooms, rs, q, heads, n); }
  }

  /** It is refused for a guest exactly if that guest is the first member whom the airport knows not to
      have cleared. */
  lemma NotClearedIff(rooms: seq<Room>, rs: seq<Reservation>, q: Request, cleared: Clearance, members: seq<string>,
        heads: int, g: string)
    requires q.checkIn < q.checkOut && IsParty(q, members, heads)
    ensures Decide(rooms, rs, q, cleared) == Refused(NotCleared(g)) <==>
            exists i: nat :: && i < |members| && members[i] == g && g in cleared && cleared[g] == false
                             && forall j :: 0 <= j < i && members[j] in cleared ==> cleared[members[j]]
  {
    PartyIff(q, members, heads);
    FirstHeldIs(members, cleared);
    if i: nat :| IsFirstBlocked(members, cleared, i, g) { assert members[i] == g; }
    forall i: nat | i < |members| && members[i] == g && g in cleared && cleared[g] == false
                    && forall j :: 0 <= j < i && members[j] in cleared ==> cleared[members[j]]
      ensures IsFirstBlocked(members, cleared, i, g) {}
  }

  /** It is refused for want of capacity exactly if everybody has cleared and every room of the kind is too
      small, and for want of a room exactly if some is big enough and each of those is taken. */
  lemma NoRoomIff(rooms: seq<Room>, rs: seq<Reservation>, q: Request, cleared: Clearance, members: seq<string>,
        heads: int)
    requires q.checkIn < q.checkOut && IsParty(q, members, heads)
    ensures Decide(rooms, rs, q, cleared) == Refused(OverCapacity) <==>
            && AllCleared(members, cleared)
            && forall k: nat :: k < |rooms| && rooms[k].kind == q.kind ==> heads > rooms[k].capacity
    ensures Decide(rooms, rs, q, cleared) == Refused(NoRoom) <==>
            && AllCleared(members, cleared) && (exists k: nat :: k < |rooms| && Big(rooms[k], q, heads))
            && forall k: nat :: k < |rooms| && Big(rooms[k], q, heads) ==> !FreeFor(rooms[k], rs, q)
  {
    PartyIff(q, members, heads);
    FirstHeldIs(members, cleared);
    SearchFinds(rooms, rs, q, heads, 0);
    CanStayIff(rooms, rs, q, heads);
    assert SomeRoomFits(rooms, q.kind, heads) <==> exists k: nat :: k < |rooms| && Big(rooms[k], q, heads);
  }

  /** The refusals that do not look at airport or rooms, in the order of the code. They are the only ones when
      the days or the party are not in order. */
  lemma BadRequestIff(rooms: seq<Room>, rs: seq<Reservation>, q: Request, cleared: Clearance)
    ensures var d := Decide(rooms, rs, q, cleared);
            && (d == Refused(BadDays) <==> q.checkOut <= q.checkIn)
            && (d == Refused(EmptyParty) <==> q.checkIn < q.checkOut && q.party == Some([]))
            && (d == Refused(BlankMember) <==> q.checkIn < q.checkOut && q.party.Some? && "" in q.party.value)
            && (d == Refused(RepeatedMember) <==>
                  && q.checkIn < q.checkOut && q.party.Some? && "" !in q.party.value
                  && exists i, j :: 0 <= i < j < |q.party.value| && q.party.value[i] == q.party.value[j])
            && (d == Refused(BookerMissing) <==>
                  && q.checkIn < q.checkOut && q.party.Some? && q.party.value != [] && "" !in q.party.value
                  && q.guest !in q.party.value
                  && forall i, j :: 0 <= i < j < |q.party.value| ==> q.party.value[i] != q.party.value[j])
  {
    if q.party.Some? { AllDifferentIff(q.party.value); }
    if ResolveParty(q).Ok? { FirstHeldIs(ResolveParty(q).value.members, cleared); }
  }

  /** A grant adds one confirmed reservation with the request's own details for the granted room and
      publishes it; a refusal changes nothing and publishes nothing. */
  lemma MakeAddsOne(rooms: seq<Room>, rs: seq<Reservation>, q: Request, cleared: Clearance)
    ensures var s := Step(rooms, rs, Make(q, cleared));
            match Decide(rooms, rs, q, cleared)
            case Refused(why) => s == Outcome(rs, Made(Refused(why)), [])
            case Ok(n) =>
              && n < |rooms| && s.answer == Made(Ok(|rs|)) && |s.table| == |rs| + 1 && s.table[..|rs|] == rs
              && var r := s.table[|rs|];
                 && r.guest == q.guest && r.room == rooms[n].id && rooms[n].kind == q.kind
                 && r.guestCount == q.guestCount && r.checkIn == q.checkIn && r.checkOut == q.checkOut
                 && r.party == q.party.GetOr([q.guest]) && r.status == Confirmed
                 && s.events == [ReservationConfirmed(|rs|, r)]
  {
    DecideFacts(rooms, rs, q, cleared);
    if ResolveParty(q).Ok? { SearchFinds(rooms, rs, q, ResolveParty(q).value.heads, 0); }
  }

  /** Cancelling touches the one reservation, and only its status; a second time it does nothing more. */
  lemma DropChangesOne(rooms: seq<Room>, rs: seq<Reservation>, id: nat)
    ensures var s := Step(rooms, rs, Drop(id));
            && |s.table| == |rs|
            && (id >= |rs| ==> s == Outcome(rs, Dropped(NotFound), []))
            && (id < |rs| ==>
                  && s.answer == Dropped(IsCancelled(id)) && s.table[id] == rs[id].(status := Cancelled)
                  && (forall i :: 0 <= i < |rs| && i != id ==> s.table[i] == rs[i])
                  && s.events == if rs[id].status == Confirmed then [ReservationCancelled(id, s.table[id])] else [])
            && Step(rooms, s.table, Drop(id)).table == s.table && Step(rooms, s.table, Drop(id)).events == []
  {
  }
}

/** The rooms view against the bookings it is computed from. */
module HotelOccupancy {
  import opened Wrappers
  import opened HotelModel
  import opened HotelRuns
  import opened HotelLaws

  // ---------------------------------------------------------------- one reservation at a time

  lemma {:induction false} NobodyThere(rs: seq<Reservation>, room: int, day: int)
    requires forall i :: 0 <= i < |rs| && rs[i].room == room && rs[i].status == Confirmed ==>
               !(rs[i].checkIn <= day < rs[i].checkOut)
    ensures Occupancy(rs, room, day) == 0
  {
    if rs != [] { NobodyThere(rs[..|rs| - 1], room, day); }
  }

  /** The sum has at most one term: the occupancy of a room is that of the one reservation
      staying there that day. */
  lemma {:induction false} OccupancyIsOneStay(rs: seq<Reservation>, room: int, day: int, i: nat)
    requires Sound(rs) && i < |rs| && rs[i].room == room
    requires rs[i].status == Confirmed && rs[i].checkIn <= day < rs[i].checkOut
    ensures Occupancy(rs, room, day) == if |rs[i].party| > 1 then |rs[i].party| else rs[i].guestCount
  {
    var before, n := rs[..|rs| - 1], |rs| - 1;
    if i < n {
      assert !Clash(rs[i], rs[n]);
      OccupancyIsOneStay(before, room, day, i);
    } else {
      forall j | 0 <= j < |before| ensures !(before[j].room == room && Covers(before[j], day)) {
        assert !Clash(rs[j], rs[n]);
      }
      NobodyThere(before, room, day);
    }
  }

  ghost predicate Fits(rs: seq<Reservation>, room: Room) {
    forall i :: 0 <= i < |rs| && rs[i].status == Confirmed && rs[i].room == room.id ==> Heads(rs[i]) <= room.capacity
  }

  ghost predicate ShownWithin(rs: seq<Reservation>, room: Room, day: int) {
    Occupancy(rs, room.id, day) <= room.capacity
  }

  /** A room is never shown beyond its capacity exactly if each reservation holding it fits. */
  lemma ViewWithinCapacityIff(rs: seq<Reservation>, room: Room)
    requires Sound(rs) && room.capacity >= 0
    ensures (forall day :: ShownWithin(rs, room, day)) <==> Fits(rs, room)
  {
    if Fits(rs, room) {
      forall day ensures ShownWithin(rs, room, day) {
        if i :| 0 <= i < |rs| && rs[i].room == room.id && Covers(rs[i], day) {
          OccupancyIsOneStay(rs, room.id, day, i);
        } else {
          NobodyThere(rs, room.id, day);
        }
      }
    } else {
      var i :| 0 <= i < |rs| && rs[i].status == Confirmed && rs[i].room == room.id && Heads(rs[i]) > room.capacity;
      OccupancyIsOneStay(rs, room.id, rs[i].checkIn, i);
      assert !ShownWithin(rs, room, rs[i].checkIn);
    }
  }

  // ---------------------------------------------------------------- which bookings fit

  /** An explicit party of one, for which the room is chosen by the party but shown by the
      guest count. */
  predicate Understated(q: Request, capacity: int) {
    q.party.Some? && |q.party.value| == 1 && q.guestCount > capacity
  }

  /** The room given to a request is shown within its capacity exactly unless the request
      understates its guests. */
  lemma GrantFitsIff(rooms: seq<Room>, rs: seq<Reservation>, q: Request, cleared: Clearance)
    requires Decide(rooms, rs, q, cleared).Ok?
    ensures var k := Decide(rooms, rs, q, cleared).value;
            && ResolveParty(q).Ok? && k < |rooms|
            && (Heads(Booked(q, ResolveParty(q).value.members, rooms[k])) <= rooms[k].capacity
                <==> !Understated(q, rooms[k].capacity))
  {
    DecideFacts(rooms, rs, q, cleared);
    SearchFinds(rooms, rs, q, ResolveParty(q).value.heads, 0);
  }

  /** What a caller can check of a request against the list of rooms: no room of the kind that is big
      enough for its party is too small for the guest count it states. */
  ghost predicate Modest(rooms: seq<Room>, q: Request) {
    ResolveParty(q).Ok? ==>
      forall k :: 0 <= k < |rooms| && Eligible(rooms[k], q.kind, ResolveParty(q).value.heads) ==>
        !Understated(q, rooms[k].capacity)
  }

  /** The request is refused on this table or given a room it fits. */
  ghost predicate FitsOn(rooms: seq<Room>, rs: seq<Reservation>, q: Request, cleared: Clearance) {
    var d := Decide(rooms, rs, q, cleared);
    DecideFacts(rooms, rs, q, cleared);
    d.Ok? ==> Heads(Booked(q, ResolveParty(q).value.members, rooms[d.value])) <= rooms[d.value].capacity
  }

  lemma ModestFits(rooms: seq<Room>, rs: seq<Reservation>, q: Request, cleared: Clearance)
    requires Modest(rooms, q)
    ensures FitsOn(rooms, rs, q, cleared)
  {
    if Decide(rooms, rs, q, cleared).Ok? {
      GrantFitsIff(rooms, rs, q, cleared);
      SearchFinds(rooms, rs, q, ResolveParty(q).value.heads, 0);
    }
  }

  lemma {:induction false} RunSnoc(rooms: seq<Room>, rs: seq<Reservation>, cs: seq<Command>, c: Command)
    ensures Run(rooms, rs, cs + [c]) == Step(rooms, Run(rooms, rs, cs), c).table
    decreases |cs|
  {
    if cs == [] {
      assert cs + [c] == [c] && [c][1..] == [];
      assert Run(rooms, rs, [c]) == Run(rooms, Step(rooms, rs, c).table, []);
    } else {
      assert (cs + [c])[1..] == cs[1..] + [c];
      RunSnoc(rooms, Step(rooms, rs, cs[0]).table, cs[1..], c);
    }
  }

  /** Every big enough room of the kind before room `k` is taken, and nobody is in a later one. */
  ghost predicate FilledUpTo(rooms: seq<Room>, rs: seq<Reservation>, q: Request, k: nat)
    requires k <= |rooms| && ResolveParty(q).Ok?
  {
    && (forall j :: 0 <= j < k ==> !CanStay(rooms, rs, q, ResolveParty(q).value.heads, j))
    && forall i, j :: 0 <= i < |rs| && k <= j < |rooms| ==> rs[i].room != rooms[j].id
  }

  /** One more of the same request fills room `k` if it is big enough. */
  lemma FillNext(rooms: seq<Room>, rs: seq<Reservation>, q: Request, cleared: Clearance, k: nat)
    requires Ordered(rooms) && Admissible(q, cleared) && k < |rooms| && FilledUpTo(rooms, rs, q, k)
    requires Eligible(rooms[k], q.kind, ResolveParty(q).value.heads)
    ensures Decide(rooms, rs, q, cleared) == Ok(k)
    ensures FilledUpTo(rooms, Step(rooms, rs, Make(q, cleared)).table, q, k + 1)
  {
    var heads := ResolveParty(q).value.heads;
    assert CanStay(rooms, rs, q, heads, k);
    FirstFitIsUnique(rooms, rs, q, heads, k);
    FirstHeldIs(ResolveParty(q).value.members, cleared);
    var r := Booked(q, ResolveParty(q).value.members, rooms[k]);
    var after := Step(rooms, rs, Make(q, cleared)).table;
    assert after == rs + [r] && after[|rs|] == r;
    forall j | 0 <= j < k ensures !CanStay(rooms, after, q, heads, j) {
      assert !CanStay(rooms, rs, q, heads, j);
      TakenStays(rs, r, rooms[j].id, q.checkIn, q.checkOut);
    }
    assert Taken(after, rooms[k].id, q.checkIn, q.checkOut) by { assert Meets(after[|rs|], q.checkIn, q.checkOut); }
  }

  lemma TakenStays(rs: seq<Reservation>, r: Reservation, room: int, from: int, to: int)
    ensures Taken(rs, room, from, to) ==> Taken(rs + [r], room, from, to)
  {
    if i :| 0 <= i < |rs| && rs[i].room == room && Meets(rs[i], from, to) {
      assert (rs + [r])[i] == rs[i];
    }
  }

  /** Repeating an admissible request gives it every big enough room of the kind in turn. */
  lemma {:induction false} Refill(rooms: seq<Room>, q: Request, cleared: Clearance, k: nat) returns (cs: seq<Command>)
    requires Ordered(rooms) && Admissible(q, cleared) && k <= |rooms|
    ensures forall i :: 0 <= i < |cs| ==> cs[i] == Make(q, cleared)
    ensures FilledUpTo(rooms, Run(rooms, [], cs), q, k)
  {
    cs := [];
    if k > 0 {
      cs := Refill(rooms, q, cleared, k - 1);
      if Eligible(rooms[k - 1], q.kind, ResolveParty(q).value.heads) {
        FillNext(rooms, Run(rooms, [], cs), q, cleared, k - 1);
        RunSnoc(rooms, [], cs, Make(q, cleared));
        cs := cs + [Make(q, cleared)];
      }
    }
  }

  /** An admissible request fits the room it is given in every run, if it is given one, if and only if
      it is modest. */
  lemma AlwaysFitsIff(rooms: seq<Room>, q: Request, cleared: Clearance)
    requires Ordered(rooms) && Admissible(q, cleared)
    ensures (forall cs :: FitsOn(rooms, Run(rooms, [], cs), q, cleared)) <==> Modest(rooms, q)
  {
    if Modest(rooms, q) {
      forall cs ensures FitsOn(rooms, Run(rooms, [], cs), q, cleared) {
        ModestFits(rooms, Run(rooms, [], cs), q, cleared);
      }
    } else {
      var k :| 0 <= k < |rooms| && Eligible(rooms[k], q.kind, ResolveParty(q).value.heads)
          && Understated(q, rooms[k].capacity);
      var cs := Refill(rooms, q, cleared, k);
      FillNext(rooms, Run(rooms, [], cs), q, cleared, k);
      GrantFitsIff(rooms, Run(rooms, [], cs), q, cleared);
      assert !FitsOn(rooms, Run(rooms, [], cs), q, cleared);
    }
  }

  // ---------------------------------------------------------------- whole runs

  ghost predicate AllFit(rooms: seq<Room>, rs: seq<Reservation>) {
    forall k :: 0 <= k < |rooms| ==> Fits(rs, rooms[k])
  }

  lemma StepFits(rooms: seq<Room>, rs: seq<Reservation>, c: Command)
    requires Ordered(rooms) && AllFit(rooms, rs) && (c.Make? ==> FitsOn(rooms, rs, c.request, c.cleared))
    ensures AllFit(rooms, Step(rooms, rs, c).table)
  {
    var after := Step(rooms, rs, c).table;
    forall k | 0 <= k < |rooms| ensures Fits(after, rooms[k]) {
      assert Fits(rs, rooms[k]);
      match c
      case Make(q, cleared) =>
        var d := Decide(rooms, rs, q, cleared);
        DecideFacts(rooms, rs, q, cleared);
        if d.Ok? { assert rooms[d.value].id == rooms[k].id ==> d.value == k; }
      case Drop(id) =>
    }
  }

  lemma {:induction false} RunFits(rooms: seq<Room>, rs: seq<Reservation>, cs: seq<Command>)
    requires Ordered(rooms) && AllFit(rooms, rs)
    requires forall i :: 0 <= i < |cs| && cs[i].Make? ==> Modest(rooms, cs[i].request)
    ensures AllFit(rooms, Run(rooms, rs, cs))
    decreases |cs|
  {
    if cs != [] {
      if cs[0].Make? { ModestFits(rooms, rs, cs[0].request, cs[0].cleared); }
      StepFits(rooms, rs, cs[0]);
      RunFits(rooms, Step(rooms, rs, cs[0]).table, cs[1..]);
    }
  }

  /** When all bookings are modest, every room is shown within its capacity on every day. */
  lemma {:induction false} OccupancyWithinCapacity(rooms: seq<Room>, cs: seq<Command>, k: nat, day: int)
    requires Ordered(rooms) && k < |rooms| && rooms[k].capacity >= 0
    requires forall i :: 0 <= i < |cs| && cs[i].Make? ==> Modest(rooms, cs[i].request)
    ensures ShownWithin(Run(rooms, [], cs), rooms[k], day)
  {
    RunStaysSound(rooms, [], cs);
    RunFits(rooms, [], cs);
    assert Fits(Run(rooms, [], cs), rooms[k]);
    ViewWithinCapacityIff(Run(rooms, [], cs), rooms[k]);
  }

  ghost predicate OnlyUses(cs: seq<Command>, allowed: Command -> bool) {
    forall i :: 0 <= i < |cs| ==> allowed(cs[i])
  }

  ghost predicate AlwaysShownWithin(rooms: seq<Room>, allowed: Command -> bool) {
    forall cs, k, day :: OnlyUses(cs, allowed) && 0 <= k < |rooms| ==> ShownWithin(Run(rooms, [], cs), rooms[k], day)
  }

  /** Whichever calls are allowed: no run of them ever shows a room beyond its capacity if and only
      if every admissible booking among them is modest. */
  lemma OccupancyWithinCapacityIff(rooms: seq<Room>, allowed: Command -> bool)
    requires Ordered(rooms) && forall k :: 0 <= k < |rooms| ==> rooms[k].capacity >= 0
    ensures AlwaysShownWithin(rooms, allowed) <==>
            forall q, cleared :: allowed(Make(q, cleared)) && Admissible(q, cleared) ==> Modest(rooms, q)
  {
    if forall q, cleared :: allowed(Make(q, cleared)) && Admissible(q, cleared) ==> Modest(rooms, q) {
      forall cs, k, day | OnlyUses(cs, allowed) && 0 <= k < |rooms|
        ensures ShownWithin(Run(rooms, [], cs), rooms[k], day)
      {
        AllowedRunFits(rooms, [], cs, allowed);
        RunStaysSound(rooms, [], cs);
        assert Fits(Run(rooms, [], cs), rooms[k]);
        ViewWithinCapacityIff(Run(rooms, [], cs), rooms[k]);
      }
    } else {
      var q, cleared :| allowed(Make(q, cleared)) && Admissible(q, cleared) && !Modest(rooms, q);
      var cs, k, day := Overfill(rooms, q, cleared);
      assert OnlyUses(cs, allowed);
      assert !ShownWithin(Run(rooms, [], cs), rooms[k], day);
    }
  }

  lemma {:induction false} AllowedRunFits(rooms: seq<Room>, rs: seq<Reservation>, cs: seq<Command>,
        allowed: Command -> bool)
    requires Ordered(rooms) && AllFit(rooms, rs) && OnlyUses(cs, allowed)
    requires forall q, cleared :: allowed(Make(q, cleared)) && Admissible(q, cleared) ==> Modest(rooms, q)
    ensures AllFit(rooms, Run(rooms, rs, cs))
    decreases |cs|
  {
    if cs != [] {
      match cs[0] {
        case Make(q, cleared) =>
          GrantedIff(rooms, rs, q, cleared);
          if Admissible(q, cleared) { ModestFits(rooms, rs, q, cleared); }
        case Drop(_) =>
      }
      StepFits(rooms, rs, cs[0]);
      AllowedRunFits(rooms, Step(rooms, rs, cs[0]).table, cs[1..], allowed);
    }
  }

  /** Repeating an immodest request overfills a room. */
  lemma Overfill(rooms: seq<Room>, q: Request, cleared: Clearance) returns (cs: seq<Command>, k: nat, day: int)
    requires Ordered(rooms) && Admissible(q, cleared) && !Modest(rooms, q)
    ensures k < |rooms| && !ShownWithin(Run(rooms, [], cs), rooms[k], day)
    ensures forall i :: 0 <= i < |cs| ==> cs[i] == Make(q, cleared)
  {
    k :| 0 <= k < |rooms| && Eligible(rooms[k], q.kind, ResolveParty(q).value.heads)
        && Understated(q, rooms[k].capacity);
    cs := Refill(rooms, q, cleared, k);
    var rs := Run(rooms, [], cs);
    FillNext(rooms, rs, q, cleared, k);
    GrantFitsIff(rooms, rs, q, cleared);
    RunSnoc(rooms, [], cs, Make(q, cleared));
    cs, day := cs + [Make(q, cleared)], q.checkIn;
    RunStaysSound(rooms, [], cs);
    var after := Run(rooms, [], cs);
    assert after[|rs|] == Booked(q, ResolveParty(q).value.members, rooms[k]);
    OccupancyIsOneStay(after, rooms[k].id, day, |rs|);
  }

  /** With one, it can be exceeded: any room for one takes any number of guests. */
  lemma UnderstatedOverfills(room: Room, guest: string, count: int, day: int)
    requires room.capacity >= 1 && count > room.capacity && guest != ""
    ensures var q := Request(guest, Some([guest]), room.kind, count, day, day + 1);
            Occupancy(Run([room], [], [Make(q, map[])]), room.id, day) == count > room.capacity
  {
    var q := Request(guest, Some([guest]), room.kind, count, day, day + 1);
    AllDifferentIff([guest]);
    assert ResolveParty(q) == Ok(Party([guest], 1));
    assert Eligible([room][0], q.kind, 1) && !Taken([], room.id, day, day + 1);
    assert CanStay([room], [], q, 1, 0);
    FirstFitIsUnique([room], [], q, 1, 0);
    assert FirstHeld([guest], map[]).None? by { FirstHeldIs([guest], map[]); }
    var r := Booked(q, [guest], room);
    assert Step([room], [], Make(q, map[])).table == [] + [r] == [r];
    assert [Make(q, map[])][1..] == [] && Run([room], [r], []) == [r];
    assert [r][..0] == [] && Occupancy([], room.id, day) == 0;
  }

  // ---------------------------------------------------------------- one night

  /** Requests are checked on arrival to count at least one guest. */
  ghost predicate Validated(c: Command) {
    c.Make? ==> c.request.guestCount >= 1
  }

  ghost predicate Counted(rs: seq<Reservation>) {
    forall i :: 0 <= i < |rs| ==> Heads(rs[i]) >= 1
  }

  lemma {:induction false} RunCounted(rooms: seq<Room>, rs: seq<Reservation>, cs: seq<Command>)
    requires Counted(rs) && forall i :: 0 <= i < |cs| ==> Validated(cs[i])
    ensures Counted(Run(rooms, rs, cs))
    decreases |cs|
  {
    if cs != [] {
      assert Validated(cs[0]);
      RunCounted(rooms, Step(rooms, rs, cs[0]).table, cs[1..]);
    }
  }

  lemma OccupiedIffCovered(rs: seq<Reservation>, room: int, day: int)
    requires Sound(rs) && Counted(rs)
    ensures Occupancy(rs, room, day) > 0 <==> Taken(rs, room, day, day + 1)
  {
    if i :| 0 <= i < |rs| && rs[i].room == room && Covers(rs[i], day) {
      OccupancyIsOneStay(rs, room, day, i);
      assert Meets(rs[i], day, day + 1);
    } else {
      NobodyThere(rs, room, day);
    }
  }

  /** An admissible one-night request that some room could take is refused exactly when the rooms
      view shows guests in every such room that night. */
  lemma {:induction false} OneNightRefusedIff(rooms: seq<Room>, cs: seq<Command>, q: Request, cleared: Clearance)
    requires Ordered(rooms) && forall i :: 0 <= i < |cs| ==> Validated(cs[i])
    requires Admissible(q, cleared) && q.checkOut == q.checkIn + 1
    requires SomeRoomFits(rooms, q.kind, ResolveParty(q).value.heads)
    ensures var rs, heads := Run(rooms, [], cs), ResolveParty(q).value.heads;
            Decide(rooms, rs, q, cleared) == Refused(NoRoom) <==>
            forall k :: 0 <= k < |rooms| && Eligible(rooms[k], q.kind, heads) ==>
              Occupancy(rs, rooms[k].id, q.checkIn) > 0
  {
    var rs, heads := Run(rooms, [], cs), ResolveParty(q).value.heads;
    RunStaysSound(rooms, [], cs);
    RunCounted(rooms, [], cs);
    GrantedIff(rooms, rs, q, cleared);
    FirstHeldIs(ResolveParty(q).value.members, cleared);
    forall k | 0 <= k < |rooms| && Eligible(rooms[k], q.kind, heads)
      ensures CanStay(rooms, rs, q, heads, k) <==> Occupancy(rs, rooms[k].id, q.checkIn) <= 0
    {
      OccupiedIffCovered(rs, rooms[k].id, q.checkIn);
    }
  }
}

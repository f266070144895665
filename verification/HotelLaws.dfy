/** What holds in every run of the hotel service. */
module HotelLaws {
  import opened Wrappers
  import opened HotelModel
  import opened HotelRuns
  import opened Sets

  // ---------------------------------------------------------------- no double booking

  ghost predicate Clash(a: Reservation, b: Reservation) {
    && a.room == b.room && a.status == Confirmed && b.status == Confirmed
    && a.checkIn < b.checkOut && b.checkIn < a.checkOut
  }

  ghost predicate Sound(rs: seq<Reservation>) {
    && (forall i :: 0 <= i < |rs| ==> rs[i].checkIn < rs[i].checkOut)
    && forall i, j :: 0 <= i < j < |rs| ==> !Clash(rs[i], rs[j])
  }

  ghost predicate ShareADay(a: Reservation, b: Reservation) {
    exists day :: Covers(a, day) && Covers(b, day)
  }

  lemma ClashIffSharedDay(a: Reservation, b: Reservation)
    requires a.checkIn < a.checkOut && b.checkIn < b.checkOut
    ensures Clash(a, b) <==> a.room == b.room && ShareADay(a, b)
  {
    if Clash(a, b) {
      var day := if a.checkIn < b.checkIn then b.checkIn else a.checkIn;
      assert Covers(a, day) && Covers(b, day);
    }
  }

  lemma StepStaysSound(rooms: seq<Room>, rs: seq<Reservation>, c: Command)
    requires Sound(rs)
    ensures Sound(Step(rooms, rs, c).table)
  {
    match c
    case Drop(id) =>
    case Make(q, cleared) =>
      DecideFacts(rooms, rs, q, cleared);
      var d := Decide(rooms, rs, q, cleared);
      if d.Ok? {
        var r := Booked(q, ResolveParty(q).value.members, rooms[d.value]);
        SearchFinds(rooms, rs, q, ResolveParty(q).value.heads, 0);
        assert !Taken(rs, r.room, q.checkIn, q.checkOut);
        forall i | 0 <= i < |rs| ensures !Clash(rs[i], r) {}
      }
  }

  lemma {:induction false} RunStaysSound(rooms: seq<Room>, rs: seq<Reservation>, cs: seq<Command>)
    requires Sound(rs)
    ensures Sound(Run(rooms, rs, cs))
    decreases |cs|
  {
    if cs != [] {
      StepStaysSound(rooms, rs, cs[0]);
      RunStaysSound(rooms, Step(rooms, rs, cs[0]).table, cs[1..]);
    }
  }

  /** In every run from an empty table, no two confirmed reservations of a room share a day. */
  lemma NoDoubleBooking(rooms: seq<Room>, cs: seq<Command>, i: nat, j: nat)
    requires i < j < |Run(rooms, [], cs)|
    ensures var rs := Run(rooms, [], cs); rs[i].room == rs[j].room ==> !ShareADay(rs[i], rs[j])
  {
    RunStaysSound(rooms, [], cs);
    var rs := Run(rooms, [], cs);
    ClashIffSharedDay(rs[i], rs[j]);
  }

  // ---------------------------------------------------------------- events

  function ConfirmedRows(rs: seq<Reservation>): nat {
    if rs == [] then 0 else ConfirmedRows(rs[..|rs| - 1]) + if rs[|rs| - 1].status == Confirmed then 1 else 0
  }

  /** Confirmations published minus cancellations published. */
  function Balance(es: seq<HotelEvent>): int {
    if es == [] then 0 else (if es[0].ReservationConfirmed? then 1 else -1) + Balance(es[1..])
  }

  lemma {:induction false} BalanceConcat(a: seq<HotelEvent>, b: seq<HotelEvent>)
    ensures Balance(a + b) == Balance(a) + Balance(b)
  {
    if a == [] {
      assert a + b == b;
    } else {
      assert (a + b)[1..] == a[1..] + b;
      BalanceConcat(a[1..], b);
    }
  }

  lemma {:induction false} RowsAfterCancel(rs: seq<Reservation>, id: nat)
    requires id < |rs| && rs[id].status == Confirmed
    ensures ConfirmedRows(rs[id := rs[id].(status := Cancelled)]) == ConfirmedRows(rs) - 1
  {
    var n, after := |rs| - 1, rs[id := rs[id].(status := Cancelled)];
    if id < n {
      RowsAfterCancel(rs[..n], id);
      assert after[..n] == rs[..n][id := rs[id].(status := Cancelled)];
    } else {
      assert after[..n] == rs[..n];
    }
  }

  lemma StepBalances(rooms: seq<Room>, rs: seq<Reservation>, c: Command)
    ensures var s := Step(rooms, rs, c); Balance(s.events) == ConfirmedRows(s.table) - ConfirmedRows(rs)
  {
    var s := Step(rooms, rs, c);
    match c {
      case Make(_, _) => if s.events != [] { assert s.table[..|rs|] == rs; }
      case Drop(id) => if s.events != [] { RowsAfterCancel(rs, id); }
    }
    if s.events != [] { assert s.events[1..] == []; }
  }

  /** Confirmations minus cancellations are the confirmed rows gained. */
  lemma {:induction false} EventsCountConfirmed(rooms: seq<Room>, rs: seq<Reservation>, cs: seq<Command>)
    ensures Balance(Published(rooms, rs, cs)) == ConfirmedRows(Run(rooms, rs, cs)) - ConfirmedRows(rs)
    decreases |cs|
  {
    if cs != [] {
      var s := Step(rooms, rs, cs[0]);
      StepBalances(rooms, rs, cs[0]);
      EventsCountConfirmed(rooms, s.table, cs[1..]);
      BalanceConcat(s.events, Published(rooms, s.table, cs[1..]));
    }
  }

  // ---------------------------------------------------------------- which room, and when none

  /** A request that passes the checks on its days, its party and its guests: nobody of the party is
      known not to have cleared. */
  ghost predicate Admissible(q: Request, cleared: Clearance) {
    && q.checkIn < q.checkOut && ResolveParty(q).Ok?
    && forall g :: g in ResolveParty(q).value.members && g in cleared ==> cleared[g]
  }

  /** A request is granted exactly if it is admissible and some room of the kind is big enough and
      free; it then gets the one of those with the lowest id. */
  lemma GrantedIff(rooms: seq<Room>, rs: seq<Reservation>, q: Request, cleared: Clearance)
    requires Ordered(rooms)
    ensures Decide(rooms, rs, q, cleared).Ok? <==>
              && Admissible(q, cleared)
              && exists k :: 0 <= k < |rooms| && CanStay(rooms, rs, q, ResolveParty(q).value.heads, k)
    ensures Decide(rooms, rs, q, cleared).Ok? ==>
              var n, heads := Decide(rooms, rs, q, cleared).value, ResolveParty(q).value.heads;
              && n < |rooms| && CanStay(rooms, rs, q, heads, n)
              && forall k :: 0 <= k < |rooms| && CanStay(rooms, rs, q, heads, k) ==> rooms[n].id <= rooms[k].id
  {
    if ResolveParty(q).Ok? {
      FirstHeldIs(ResolveParty(q).value.members, cleared);
      SearchFinds(rooms, rs, q, ResolveParty(q).value.heads, 0);
    }
  }

  /** The refusals after the airport check: over capacity when every room of the kind is too small,
      none available when some is big enough but each of those is taken. */
  lemma RefusedIff(rooms: seq<Room>, rs: seq<Reservation>, q: Request, cleared: Clearance)
    ensures Decide(rooms, rs, q, cleared) == Refused(OverCapacity) <==>
              && Admissible(q, cleared)
              && forall k :: 0 <= k < |rooms| && rooms[k].kind == q.kind ==>
                  ResolveParty(q).value.heads > rooms[k].capacity
    ensures Decide(rooms, rs, q, cleared) == Refused(NoRoom) <==>
              && Admissible(q, cleared) && SomeRoomFits(rooms, q.kind, ResolveParty(q).value.heads)
              && forall k :: 0 <= k < |rooms| && Eligible(rooms[k], q.kind, ResolveParty(q).value.heads) ==>
                   Taken(rs, rooms[k].id, q.checkIn, q.checkOut)
  {
    if ResolveParty(q).Ok? {
      var heads := ResolveParty(q).value.heads;
      FirstHeldIs(ResolveParty(q).value.members, cleared);
      SearchFinds(rooms, rs, q, heads, 0);
      assert forall k :: 0 <= k < |rooms| ==>
               (CanStay(rooms, rs, q, heads, k) <==>
                Eligible(rooms[k], q.kind, heads) && !Taken(rs, rooms[k].id, q.checkIn, q.checkOut));
    }
  }

  lemma {:induction false} AllDifferentIff(xs: seq<string>)
    ensures |set x | x in xs| <= |xs|
    ensures |set x | x in xs| == |xs| <==> forall i, j :: 0 <= i < j < |xs| ==> xs[i] != xs[j]
  {
    if xs != [] {
      var before, last := xs[..|xs| - 1], xs[|xs| - 1];
      AllDifferentIff(before);
      assert xs == before + [last];
      assert (set x | x in xs) == (set x | x in before) + {last};
      if last in before {
        var i :| 0 <= i < |before| && before[i] == last;
        assert xs[i] == xs[|xs| - 1];
        assert (set x | x in xs) == (set x | x in before);
      } else {
        forall i | 0 <= i < |before| ensures xs[i] != last { assert xs[i] == before[i]; }
        forall i, j | 0 <= i < j < |before| ensures xs[i] == before[i] && xs[j] == before[j] {}
      }
    }
  }

  /** An explicit party passes exactly if it has members, all named, all different, and one of
      them is the one who books; it is then counted by its members. */
  lemma PartyAcceptedIff(q: Request, members: seq<string>)
    requires q.party == Some(members)
    ensures ResolveParty(q).Ok? <==>
              && members != [] && q.guest in members
              && (forall i :: 0 <= i < |members| ==> members[i] != "")
              && (forall i, j :: 0 <= i < j < |members| ==> members[i] != members[j])
    ensures ResolveParty(q).Ok? ==> ResolveParty(q).value == Party(members, |members|)
  {
    AllDifferentIff(members);
  }

  // ---------------------------------------------------------------- pigeonhole

  function EligibleRooms(rooms: seq<Room>, kind: RoomType, heads: int): set<int> {
    set k | 0 <= k < |rooms| && Eligible(rooms[k], kind, heads) :: rooms[k].id
  }

  /** The confirmed reservations that meet the days and hold one of the rooms. */
  function Meeting(rs: seq<Reservation>, ids: set<int>, from: int, to: int): set<nat> {
    set i: nat | i < |rs| && rs[i].room in ids && Meets(rs[i], from, to)
  }

  lemma {:induction false} Pigeonhole(rs: seq<Reservation>, ids: set<int>, from: int, to: int)
    requires forall id :: id in ids ==> Taken(rs, id, from, to)
    ensures |ids| <= |Meeting(rs, ids, from, to)|
  {
    if ids != {} {
      var id := AnElement(ids);
      var rest := ids - {id};
      Pigeonhole(rs, rest, from, to);
      var i :| 0 <= i < |rs| && rs[i].room == id && Meets(rs[i], from, to);
      assert i in Meeting(rs, ids, from, to) && i !in Meeting(rs, rest, from, to);
      SubsetSize(Meeting(rs, rest, from, to), Meeting(rs, ids, from, to));
    }
  }

  /** A refusal for availability means that at least as many confirmed reservations meet the days
      as there are rooms that could take the party. */
  lemma RefusalMeansFull(rooms: seq<Room>, rs: seq<Reservation>, q: Request, cleared: Clearance)
    requires Decide(rooms, rs, q, cleared) == Refused(NoRoom)
    ensures var ids := EligibleRooms(rooms, q.kind, ResolveParty(q).value.heads);
            ids != {} && |ids| <= |Meeting(rs, ids, q.checkIn, q.checkOut)|
  {
    NotNoRoom(q);
    var heads := ResolveParty(q).value.heads;
    var ids := EligibleRooms(rooms, q.kind, heads);
    SearchFinds(rooms, rs, q, heads, 0);
    forall id | id in ids ensures Taken(rs, id, q.checkIn, q.checkOut) {
      var k :| 0 <= k < |rooms| && Eligible(rooms[k], q.kind, heads) && rooms[k].id == id;
      assert !CanStay(rooms, rs, q, heads, k);
    }
    var k :| 0 <= k < |rooms| && Eligible(rooms[k], q.kind, heads);
    assert rooms[k].id in ids;
    Pigeonhole(rs, ids, q.checkIn, q.checkOut);
  }

  lemma NotNoRoom(q: Request)
    ensures ResolveParty(q) != Refused(NoRoom)
  {
  }

  // ---------------------------------------------------------------- bookings that overlap

  /** What a granted request inserts. */
  function Granted(rooms: seq<Room>, rs: seq<Reservation>, c: Command): Reservation
    requires c.Make? && Decide(rooms, rs, c.request, c.cleared).Ok?
  {
    DecideFacts(rooms, rs, c.request, c.cleared);
    Booked(c.request, ResolveParty(c.request).value.members, rooms[Decide(rooms, rs, c.request, c.cleared).value])
  }

  ghost predicate AllGranted(rooms: seq<Room>, rs: seq<Reservation>, cs: seq<Command>) {
    forall i :: 0 <= i < |cs| ==> cs[i].Make? && Decide(rooms, rs, cs[i].request, cs[i].cleared).Ok?
  }

  /** Bookings that all read the same table before any of them inserts. */
  ghost function InsertAll(rooms: seq<Room>, rs: seq<Reservation>, cs: seq<Command>): (after: seq<Reservation>)
    requires AllGranted(rooms, rs, cs)
  {
    rs + seq(|cs|, i requires 0 <= i < |cs| => Granted(rooms, rs, cs[i]))
  }

  /** Two of them chose the same room for stays that meet. */
  ghost predicate Collide(rooms: seq<Room>, rs: seq<Reservation>, a: Command, b: Command)
    requires a.Make? && b.Make?
  {
    && Decide(rooms, rs, a.request, a.cleared) == Decide(rooms, rs, b.request, b.cleared)
    && a.request.checkIn < b.request.checkOut && b.request.checkIn < a.request.checkOut
  }

  lemma GrantedFacts(rooms: seq<Room>, rs: seq<Reservation>, c: Command)
    requires c.Make? && Decide(rooms, rs, c.request, c.cleared).Ok?
    ensures var r := Granted(rooms, rs, c);
            && r.checkIn < r.checkOut && r.status == Confirmed
            && r.checkIn == c.request.checkIn && r.checkOut == c.request.checkOut
            && !Taken(rs, r.room, r.checkIn, r.checkOut)
  {
    DecideFacts(rooms, rs, c.request, c.cleared);
    SearchFinds(rooms, rs, c.request, ResolveParty(c.request).value.heads, 0);
  }

  lemma ClashIffCollide(rooms: seq<Room>, rs: seq<Reservation>, a: Command, b: Command)
    requires Ordered(rooms)
    requires a.Make? && Decide(rooms, rs, a.request, a.cleared).Ok?
    requires b.Make? && Decide(rooms, rs, b.request, b.cleared).Ok?
    ensures Clash(Granted(rooms, rs, a), Granted(rooms, rs, b)) <==> Collide(rooms, rs, a, b)
  {
    GrantedFacts(rooms, rs, a);
    GrantedFacts(rooms, rs, b);
    DecideFacts(rooms, rs, a.request, a.cleared);
    DecideFacts(rooms, rs, b.request, b.cleared);
    var j, k := Decide(rooms, rs, a.request, a.cleared).value, Decide(rooms, rs, b.request, b.cleared).value;
    assert rooms[j].id == rooms[k].id ==> j == k;
  }

  /** Adding rows that clash with none there keeps the table sound exactly if it is sound of them. */
  lemma SoundAppendIff(rs: seq<Reservation>, added: seq<Reservation>)
    requires Sound(rs) && forall i, j :: 0 <= i < |rs| && 0 <= j < |added| ==> !Clash(rs[i], added[j])
    ensures Sound(rs + added) <==> Sound(added)
  {
    var after, n := rs + added, |rs|;
    if Sound(after) {
      forall j | 0 <= j < |added| ensures added[j] == after[n + j] {}
    }
    if Sound(added) {
      forall i, j | 0 <= i < j < |after| ensures !Clash(after[i], after[j]) {
        if i >= n { assert !Clash(added[i - n], added[j - n]); }
      }
    }
  }

  lemma InsertedSoundIff(rooms: seq<Room>, rs: seq<Reservation>, cs: seq<Command>, added: seq<Reservation>)
    requires Ordered(rooms) && AllGranted(rooms, rs, cs)
    requires |added| == |cs| && forall i :: 0 <= i < |cs| ==> added[i] == Granted(rooms, rs, cs[i])
    ensures Sound(added) <==> forall i, j :: 0 <= i < j < |cs| ==> !Collide(rooms, rs, cs[i], cs[j])
  {
    forall i | 0 <= i < |cs| ensures added[i].checkIn < added[i].checkOut { GrantedFacts(rooms, rs, cs[i]); }
    forall i, j | 0 <= i < j < |cs| ensures Clash(added[i], added[j]) <==> Collide(rooms, rs, cs[i], cs[j]) {
      ClashIffCollide(rooms, rs, cs[i], cs[j]);
    }
  }

  lemma NoneClashesWithTable(rooms: seq<Room>, rs: seq<Reservation>, c: Command, i: nat)
    requires c.Make? && Decide(rooms, rs, c.request, c.cleared).Ok? && i < |rs|
    ensures !Clash(rs[i], Granted(rooms, rs, c))
  {
    GrantedFacts(rooms, rs, c);
  }

  /** Bookings that overlap in time leave no double booking exactly if no two of them chose the same
      room for stays that meet. */
  lemma OverlapSoundIff(rooms: seq<Room>, rs: seq<Reservation>, cs: seq<Command>)
    requires Ordered(rooms) && Sound(rs) && AllGranted(rooms, rs, cs)
    ensures Sound(InsertAll(rooms, rs, cs)) <==> forall i, j :: 0 <= i < j < |cs| ==> !Collide(rooms, rs, cs[i], cs[j])
  {
    var added := seq(|cs|, i requires 0 <= i < |cs| => Granted(rooms, rs, cs[i]));
    assert InsertAll(rooms, rs, cs) == rs + added;
    forall i, j | 0 <= i < |rs| && 0 <= j < |added| ensures !Clash(rs[i], added[j]) {
      NoneClashesWithTable(rooms, rs, cs[j], i);
    }
    SoundAppendIff(rs, added);
    InsertedSoundIff(rooms, rs, cs, added);
  }

  // ---------------------------------------------------------------- create, then cancel

  /** `b` is `a` with one cancelled row in it. */
  ghost predicate Inserted(a: seq<Reservation>, b: seq<Reservation>, n: nat) {
    n < |b| && b[n].status == Cancelled && a == b[..n] + b[n + 1..]
  }

  function Shift(n: nat, id: nat): nat {
    if id < n then id else id + 1
  }

  function ShiftCommand(n: nat, c: Command): Command {
    match c
    case Make(_, _) => c
    case Drop(id) => Drop(Shift(n, id))
  }

  function ShiftAnswer(n: nat, a: Answer): Answer {
    match a
    case Made(Ok(id)) => Made(Ok(Shift(n, id)))
    case Made(Refused(_)) => a
    case Dropped(IsCancelled(id)) => Dropped(IsCancelled(Shift(n, id)))
    case Dropped(NotFound) => a
  }

  function ShiftAll(n: nat, cs: seq<Command>): seq<Command> {
    seq(|cs|, i requires 0 <= i < |cs| => ShiftCommand(n, cs[i]))
  }

  lemma InsertedRows(a: seq<Reservation>, b: seq<Reservation>, n: nat)
    requires Inserted(a, b, n)
    ensures |b| == |a| + 1 && forall i :: 0 <= i < |a| ==> a[i] == b[Shift(n, i)]
  {
  }

  lemma SameTaken(a: seq<Reservation>, b: seq<Reservation>, n: nat, room: int, from: int, to: int)
    requires Inserted(a, b, n)
    ensures Taken(a, room, from, to) <==> Taken(b, room, from, to)
  {
    InsertedRows(a, b, n);
    if Taken(a, room, from, to) {
      var i :| 0 <= i < |a| && a[i].room == room && Meets(a[i], from, to);
      assert b[Shift(n, i)] == a[i];
    }
    if Taken(b, room, from, to) {
      var i :| 0 <= i < |b| && b[i].room == room && Meets(b[i], from, to);
      assert a[if i < n then i else i - 1] == b[i];
    }
  }

  lemma {:induction false} SameSearch(rooms: seq<Room>, a: seq<Reservation>, b: seq<Reservation>, n: nat, q: Request,
        heads: int, k: nat)
    requires Inserted(a, b, n)
    ensures Search(rooms, a, q, heads, k) == Search(rooms, b, q, heads, k)
    decreases |rooms| - k
  {
    if k < |rooms| {
      SameTaken(a, b, n, rooms[k].id, q.checkIn, q.checkOut);
      SameSearch(rooms, a, b, n, q, heads, k + 1);
    }
  }

  lemma SameDecision(rooms: seq<Room>, a: seq<Reservation>, b: seq<Reservation>, n: nat, q: Request, cleared: Clearance)
    requires Inserted(a, b, n)
    ensures Decide(rooms, a, q, cleared) == Decide(rooms, b, q, cleared)
  {
    if ResolveParty(q).Ok? { SameSearch(rooms, a, b, n, q, ResolveParty(q).value.heads, 0); }
  }

  lemma SameStep(rooms: seq<Room>, a: seq<Reservation>, b: seq<Reservation>, n: nat, c: Command)
    requires Inserted(a, b, n)
    ensures var s, t := Step(rooms, a, c), Step(rooms, b, ShiftCommand(n, c));
            t.answer == ShiftAnswer(n, s.answer) && Inserted(s.table, t.table, n)
  {
    InsertedRows(a, b, n);
    var s, t := Step(rooms, a, c), Step(rooms, b, ShiftCommand(n, c));
    match c
    case Make(q, cleared) =>
      SameDecision(rooms, a, b, n, q, cleared);
      DecideFacts(rooms, a, q, cleared);
      var d := Decide(rooms, a, q, cleared);
      if d.Ok? {
        var r := Booked(q, ResolveParty(q).value.members, rooms[d.value]);
        assert t.table == b + [r] && s.table == a + [r];
        assert (b + [r])[..n] == b[..n] && (b + [r])[n + 1..] == b[n + 1..] + [r];
        assert s.table == t.table[..n] + t.table[n + 1..];
      }
    case Drop(id) =>
      if id < |a| && a[id].status == Confirmed {
        assert s.table == t.table[..n] + t.table[n + 1..];
      }
  }

  /** A cancelled row makes no difference to any later answer. */
  lemma {:induction false} CancelledIsInvisible(rooms: seq<Room>, a: seq<Reservation>, b: seq<Reservation>, n: nat,
        cs: seq<Command>)
    requires Inserted(a, b, n)
    ensures var x, y := Answers(rooms, a, cs), Answers(rooms, b, ShiftAll(n, cs));
            |x| == |y| == |cs| && forall i :: 0 <= i < |cs| ==> y[i] == ShiftAnswer(n, x[i])
    decreases |cs|
  {
    if cs != [] {
      var s, t := Step(rooms, a, cs[0]), Step(rooms, b, ShiftCommand(n, cs[0]));
      SameStep(rooms, a, b, n, cs[0]);
      assert ShiftAll(n, cs)[1..] == ShiftAll(n, cs[1..]);
      CancelledIsInvisible(rooms, s.table, t.table, n, cs[1..]);
    }
  }

  /** Booking and then cancelling leaves the answer to every later sequence of requests as it was,
      up to the numbering of later reservations. */
  lemma CreateThenCancel(rooms: seq<Room>, rs: seq<Reservation>, q: Request, cleared: Clearance, cs: seq<Command>)
    requires Decide(rooms, rs, q, cleared).Ok?
    ensures var after := Run(rooms, rs, [Make(q, cleared), Drop(|rs|)]);
            var x, y := Answers(rooms, rs, cs), Answers(rooms, after, ShiftAll(|rs|, cs));
            |x| == |y| && forall i :: 0 <= i < |x| ==> y[i] == ShiftAnswer(|rs|, x[i])
  {
    var n := |rs|;
    var made := Step(rooms, rs, Make(q, cleared)).table;
    var after := Step(rooms, made, Drop(n)).table;
    assert [Make(q, cleared), Drop(n)][1..] == [Drop(n)] && [Drop(n)][1..] == [];
    assert Run(rooms, after, []) == after;
    assert Run(rooms, made, [Drop(n)]) == after;
    assert Run(rooms, rs, [Make(q, cleared), Drop(n)]) == after;
    DecideFacts(rooms, rs, q, cleared);
    assert made[..n] == rs && after[..n] == rs && after[n + 1..] == [];
    assert rs == after[..n] + after[n + 1..];
    CancelledIsInvisible(rooms, rs, after, n, cs);
  }
}

